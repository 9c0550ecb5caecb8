/**
 The login limiter: a sliding window of failed passwords per client, in a map of bounded size. The
 router checks, verifies and records in one turn, so no window ever holds more failures than allowed.
 */
module LoginAdmission {
  import opened Common
  import opened Wrappers

  type Client = nat

  // ---- One client ----

  /** How many of the oldest failures, from the i-th on, have left the window. */
  function Expired(failures: seq<int>, cutoff: int, i: nat): (n: nat)
    requires i <= |failures|
    ensures i <= n <= |failures| && (n < |failures| ==> failures[n] > cutoff)
    ensures forall j :: i <= j < n ==> failures[j] <= cutoff
    decreases |failures| - i
  {
    if i < |failures| && failures[i] <= cutoff then Expired(failures, cutoff, i + 1) else i
  }

  /** The first `n` have left the window and the next one has not. */
  ghost predicate IsCut(failures: seq<int>, n: nat, cutoff: int) {
    && n <= |failures| && (n < |failures| ==> failures[n] > cutoff)
    && forall j :: 0 <= j < n ==> failures[j] <= cutoff
  }

  /** The failures still in the window, oldest first. */
  function Active(failures: seq<int>, cutoff: int): seq<int> {
    failures[Expired(failures, cutoff, 0)..]
  }

  /** In order of time, and `max` apart at least a window apart. */
  ghost predicate SpreadAt(log: seq<int>, max: nat, window: nat, i: nat, j: nat) {
    i < j < |log| ==> log[i] <= log[j] && (j - i >= max ==> log[j] >= log[i] + window)
  }

  /** In order of time, and no window of the configured length holds more than `max` of these. */
  ghost predicate Spread(log: seq<int>, max: nat, window: nat) {
    forall i: nat, j: nat :: SpreadAt(log, max, window, i, j)
  }

  /** A client's failures: those that have left the window, then those kept. */
  datatype History = History(expired: seq<int>, kept: seq<int>) {
    ghost function All(): seq<int> {
      expired + kept
    }

    ghost predicate Good(clock: int, max: nat, window: nat) {
      && |kept| <= max
      && Spread(expired + kept, max, window)
      && (forall i :: 0 <= i < |expired| ==> expired[i] <= clock - window)
      && (forall i :: 0 <= i < |kept| ==> kept[i] <= clock)
    }

    /** The first `n` of those kept have left the window. */
    ghost function Later(n: nat): (h: History)
      requires n <= |kept|
      ensures h.kept == kept[n..] && h.All() == All()
    {
      assert (expired + kept[..n]) + kept[n..] == expired + kept;
      History(expired + kept[..n], kept[n..])
    }

    ghost function Grown(now: int): (h: History)
      ensures h.kept == kept + [now] && h.All() == All() + [now]
    {
      History(expired, kept + [now])
    }
  }

  /** Expired failures may go. */
  lemma GoodLater(h: History, n: nat, clock: int, now: int, max: nat, window: nat)
    requires h.Good(clock, max, window) && clock <= now && n <= |h.kept|
    requires forall i :: 0 <= i < n ==> h.kept[i] <= now - window
    ensures h.Later(n).Good(now, max, window)
  {
    assert h.Later(n).All() == h.All();
  }

  /** Another failure, admitted because fewer than `max` are left in the window. */
  lemma GoodGrown(h: History, now: int, max: nat, window: nat)
    requires h.Good(now, max, window) && |h.kept| < max
    ensures h.Grown(now).Good(now, max, window)
  {
    var log := h.All();
    assert h.Grown(now).All() == log + [now];
    forall i | 0 <= i < |log| ensures log[i] <= now && (|log| - i >= max ==> now >= log[i] + window) {
      if i < |h.expired| {
        assert log[i] == h.expired[i];
      } else {
        assert log[i] == h.kept[i - |h.expired|];
      }
    }
    forall i: nat, j: nat ensures SpreadAt(log + [now], max, window, i, j) {
      assert SpreadAt(log, max, window, i, j);
    }
  }

  /** At most `max` failures in any window. */
  lemma WindowHoldsAtMost(log: seq<int>, max: nat, window: nat, i: nat, j: nat)
    requires max >= 1 && Spread(log, max, window) && i <= j < |log| && log[j] < log[i] + window
    ensures j - i + 1 <= max
  {
    assert SpreadAt(log, max, window, i, j);
  }

  // ---- Retry-After ----

  predicate Allowed(failures: seq<int>, max: nat, window: nat, now: int) {
    |Active(failures, now - window)| < max
  }

  function CeilSeconds(ms: int): int {
    -(-ms / 1000)
  }

  function RetryAfterSeconds(failures: seq<int>, window: nat, now: int): int
    requires failures != []
  {
    var seconds := CeilSeconds(failures[0] + window - now);
    if seconds > 1 then seconds else 1
  }

  lemma CeilIsExact(ms: int)
    ensures 1000 * (CeilSeconds(ms) - 1) < ms <= 1000 * CeilSeconds(ms)
  {
  }

  lemma FullUntilOldestLeaves(failures: seq<int>, max: nat, window: nat, at: int)
    requires max >= 1 && |failures| == max
    ensures Allowed(failures, max, window, at) <==> at >= failures[0] + window
  {
    var n := Expired(failures, at - window, 0);
    if n > 0 { assert failures[0] <= at - window; }
  }

  /** Waiting the seconds announced is enough, and before the oldest failure leaves the window no wait
      is: without other attempts, the client is admitted again exactly from then on. */
  lemma RetryAfterIsExact(failures: seq<int>, max: nat, window: nat, now: int, later: int)
    requires max >= 1 && |failures| == max && !Allowed(failures, max, window, now) && now <= later
    ensures Allowed(failures, max, window, later) <==> later >= failures[0] + window
    ensures later >= now + 1000 * RetryAfterSeconds(failures, window, now) ==> Allowed(failures, max, window, later)
    ensures 1000 * (RetryAfterSeconds(failures, window, now) - 1) < failures[0] + window - now
  {
    FullUntilOldestLeaves(failures, max, window, now);
    FullUntilOldestLeaves(failures, max, window, later);
    CeilIsExact(failures[0] + window - now);
  }

  /** A client counts as long as one of its failures is in the window. */
  ghost predicate Counts(failures: seq<int>, cutoff: int) {
    exists i :: 0 <= i < |failures| && failures[i] > cutoff
  }

  lemma CutCounts(failures: seq<int>, n: nat, cutoff: int)
    requires IsCut(failures, n, cutoff)
    ensures Counts(failures, cutoff) <==> n < |failures|
    ensures Counts(failures[n..], cutoff) <==> n < |failures|
  {
    if n < |failures| { assert failures[n..][0] == failures[n]; }
  }

  lemma CutTwice(failures: seq<int>, cutoff: int)
    ensures Expired(failures[Expired(failures, cutoff, 0)..], cutoff, 0) == 0
  {
    var n := Expired(failures, cutoff, 0);
    if n < |failures| { assert failures[n..][0] == failures[n]; }
  }

  // ---- All clients ----

  /** The settings of a limiter. */
  datatype Limits = Limits(maxFailures: nat, windowMs: nat, maxClients: nat)

  /** The keys of the map in insertion order, its entries, and, for the record, every failed password
      of each client since it was last reset or evicted, and the clock. */
  datatype Table = Table(clients: seq<Client>, failures: map<Client, seq<int>>, histories: map<Client, History>,
      clock: int)

  function Of(m: map<Client, seq<int>>, c: Client): seq<int> {
    if c in m then m[c] else []
  }

  ghost function HistoryOf(histories: map<Client, History>, c: Client): History {
    if c in histories then histories[c] else History([], [])
  }

  /** Every failed password of a client since it was last reset or evicted. */
  ghost function LogIn(t: Table, c: Client): seq<int> {
    HistoryOf(t.histories, c).All()
  }

  /** The keys of the map, each once. */
  ghost predicate Ordered(clients: seq<Client>, m: map<Client, seq<int>>) {
    Distinct(clients) && forall c :: c in clients <==> c in m
  }

  /** The histories agree with the map, and every one is good. */
  ghost predicate Kept(t: Table, max: nat, window: nat) {
    && (forall c :: c in t.failures ==> c in t.histories && t.histories[c].kept == t.failures[c])
    && (forall c :: c in t.histories && c !in t.failures ==> t.histories[c].kept == [])
    && (forall c :: c in t.histories ==> t.histories[c].Good(t.clock, max, window))
  }

  ghost predicate Ok(t: Table, l: Limits) {
    && l.maxFailures >= 1 && l.maxClients >= 1
    && Ordered(t.clients, t.failures) && |t.clients| <= l.maxClients
    && Kept(t, l.maxFailures, l.windowMs)
  }

  // ---- Taking a client out ----

  ghost function Removed(t: Table, c: Client): Table {
    t.(clients := Without(t.clients, c), failures := t.failures - {c}, histories := t.histories - {c})
  }

  lemma RemovedKeepsOk(t: Table, l: Limits, c: Client)
    requires Ok(t, l)
    ensures Ok(Removed(t, c), l)
  {
    WithoutRemoves(t.clients, c);
    WithoutIsNoLonger(t.clients, c);
  }

  lemma {:induction false} WithoutFirst(clients: seq<Client>)
    requires Distinct(clients) && clients != []
    ensures Without(clients, clients[0]) == clients[1..]
  {
    var n := |clients| - 1;
    if n > 0 {
      WithoutFirst(clients[..n]);
      assert clients[..n][1..] + [clients[n]] == clients[1..];
      assert clients[0] in clients[..n];
    } else {
      assert Without(clients[..n], clients[0]) == [];
    }
  }

  // ---- Looking at a client's failures ----

  /** The table once the first `n` failures of a client are taken off; without failures it goes. */
  ghost function Shifted(t: Table, client: Client, n: nat, now: int): Table
    requires n <= |Of(t.failures, client)|
  {
    var f := Of(t.failures, client);
    Table(if client in t.failures && n == |f| then Without(t.clients, client) else t.clients,
          if client !in t.failures then t.failures
          else if n == |f| then t.failures - {client} else t.failures[client := f[n..]],
          if client in t.histories && n <= |t.histories[client].kept| then
            t.histories[client := t.histories[client].Later(n)]
          else t.histories,
          now)
  }

  function ExpiredOf(m: map<Client, seq<int>>, client: Client, cutoff: int): (n: nat)
    ensures IsCut(Of(m, client), n, cutoff)
  {
    Expired(Of(m, client), cutoff, 0)
  }

  ghost function LookAt(t: Table, client: Client, now: int, l: Limits): Table {
    Shifted(t, client, ExpiredOf(t.failures, client, now - l.windowMs), now)
  }

  lemma KeptLater(t: Table, now: int, max: nat, window: nat)
    requires Kept(t, max, window) && t.clock <= now
    ensures Kept(t.(clock := now), max, window)
  {
    forall c | c in t.histories ensures t.histories[c].Good(now, max, window) {
      assert t.histories[c].Good(t.clock, max, window);
    }
  }

  lemma ShiftedKeepsKept(t: Table, client: Client, n: nat, now: int, l: Limits)
    requires Kept(t, l.maxFailures, l.windowMs) && t.clock <= now && IsCut(Of(t.failures, client), n, now - l.windowMs)
    ensures Kept(Shifted(t, client, n, now), l.maxFailures, l.windowMs)
  {
    KeptLater(t, now, l.maxFailures, l.windowMs);
    if client in t.histories {
      assert t.histories[client].kept == Of(t.failures, client);
      GoodLater(t.histories[client], n, t.clock, now, l.maxFailures, l.windowMs);
    }
  }

  lemma ShiftedKeepsOrdered(t: Table, client: Client, n: nat, now: int)
    requires Ordered(t.clients, t.failures) && n <= |Of(t.failures, client)|
    ensures Ordered(Shifted(t, client, n, now).clients, Shifted(t, client, n, now).failures)
    ensures |Shifted(t, client, n, now).clients| <= |t.clients|
  {
    WithoutRemoves(t.clients, client);
    WithoutIsNoLonger(t.clients, client);
  }

  lemma ShiftedKeepsOk(t: Table, client: Client, n: nat, now: int, l: Limits, u: Table)
    requires Ok(t, l) && t.clock <= now && IsCut(Of(t.failures, client), n, now - l.windowMs)
    requires u == Shifted(t, client, n, now)
    ensures Ok(u, l)
  {
    ShiftedKeepsOrdered(t, client, n, now);
    ShiftedKeepsKept(t, client, n, now, l);
  }

  lemma LookAtKeepsOk(t: Table, client: Client, now: int, l: Limits)
    requires Ok(t, l) && t.clock <= now
    ensures Ok(LookAt(t, client, now, l), l)
  {
    ShiftedKeepsOk(t, client, ExpiredOf(t.failures, client, now - l.windowMs), now, l, LookAt(t, client, now, l));
  }

  lemma ShiftedSameLogs(t: Table, client: Client, n: nat, now: int)
    requires n <= |Of(t.failures, client)|
    ensures forall c: Client :: LogIn(Shifted(t, client, n, now), c) == LogIn(t, c)
  {
  }

  /** Looking forgets nothing. */
  lemma LookAtSameLogs(t: Table, client: Client, now: int, l: Limits)
    ensures forall c: Client :: LogIn(LookAt(t, client, now, l), c) == LogIn(t, c)
  {
    ShiftedSameLogs(t, client, ExpiredOf(t.failures, client, now - l.windowMs), now);
  }

  // ---- Who still counts ----

  /** The clients with a failure in the window, in order of arrival. */
  ghost function Lively(clients: seq<Client>, m: map<Client, seq<int>>, cutoff: int): seq<Client> {
    if clients == [] then []
    else
      var last, front := clients[|clients| - 1], Lively(clients[..|clients| - 1], m, cutoff);
      if Counts(Of(m, last), cutoff) then front + [last] else front
  }

  ghost function StillCounting(t: Table, now: int, l: Limits): seq<Client> {
    Lively(t.clients, t.failures, now - l.windowMs)
  }

  lemma {:induction false} LivelyOfLively(clients: seq<Client>, m: map<Client, seq<int>>, cutoff: int)
    requires forall c :: c in clients ==> Counts(Of(m, c), cutoff)
    ensures Lively(clients, m, cutoff) == clients
  {
    if clients != [] {
      var front := clients[..|clients| - 1];
      assert clients == front + [clients[|clients| - 1]];
      LivelyOfLively(front, m, cutoff);
    }
  }

  lemma {:induction false} LivelyAreListed(clients: seq<Client>, m: map<Client, seq<int>>, cutoff: int)
    ensures forall c :: c in Lively(clients, m, cutoff) <==> c in clients && Counts(Of(m, c), cutoff)
    ensures |Lively(clients, m, cutoff)| <= |clients|
  {
    if clients != [] {
      LivelyAreListed(clients[..|clients| - 1], m, cutoff);
      assert clients == clients[..|clients| - 1] + [clients[|clients| - 1]];
    }
  }

  lemma {:induction false} LivelyByCounts(clients: seq<Client>, m: map<Client, seq<int>>, n: map<Client, seq<int>>,
      cutoff: int)
    requires forall c :: Counts(Of(m, c), cutoff) <==> Counts(Of(n, c), cutoff)
    ensures Lively(clients, m, cutoff) == Lively(clients, n, cutoff)
  {
    if clients != [] { LivelyByCounts(clients[..|clients| - 1], m, n, cutoff); }
  }

  lemma {:induction false} LivelyWithout(clients: seq<Client>, m: map<Client, seq<int>>, cutoff: int, c: Client)
    requires !Counts(Of(m, c), cutoff)
    ensures Lively(Without(clients, c), m, cutoff) == Lively(clients, m, cutoff)
  {
    if clients != [] {
      var front := clients[..|clients| - 1];
      LivelyWithout(front, m, cutoff, c);
      assert (Without(front, c) + [clients[|clients| - 1]])[..|Without(front, c)|] == Without(front, c);
    }
  }

  lemma ShiftedSameCounts(t: Table, client: Client, n: nat, now: int, cutoff: int)
    requires IsCut(Of(t.failures, client), n, cutoff)
    ensures var u := Shifted(t, client, n, now);
      forall c: Client :: Counts(Of(u.failures, c), cutoff) <==> Counts(Of(t.failures, c), cutoff)
    ensures client in Shifted(t, client, n, now).failures ==> Counts(Of(t.failures, client), cutoff)
    ensures n < |Of(t.failures, client)| <==> Counts(Of(t.failures, client), cutoff)
  {
    CutCounts(Of(t.failures, client), n, cutoff);
  }

  lemma ShiftedSameLively(t: Table, client: Client, n: nat, now: int, cutoff: int)
    requires IsCut(Of(t.failures, client), n, cutoff)
    ensures var u := Shifted(t, client, n, now);
      Lively(u.clients, u.failures, cutoff) == Lively(t.clients, t.failures, cutoff)
  {
    var u := Shifted(t, client, n, now);
    ShiftedSameCounts(t, client, n, now, cutoff);
    LivelyByCounts(u.clients, u.failures, t.failures, cutoff);
    if n == |Of(t.failures, client)| { LivelyWithout(t.clients, t.failures, cutoff, client); }
  }

  lemma LookAtSameLively(t: Table, client: Client, now: int, l: Limits)
    ensures StillCounting(LookAt(t, client, now, l), now, l) == StillCounting(t, now, l)
  {
    ShiftedSameLively(t, client, ExpiredOf(t.failures, client, now - l.windowMs), now, now - l.windowMs);
  }

  // ---- Looking at all of them ----

  ghost function LookAtAll(t: Table, clients: seq<Client>, now: int, l: Limits): Table {
    if clients == [] then t.(clock := now)
    else LookAt(LookAtAll(t, clients[..|clients| - 1], now, l), clients[|clients| - 1], now, l)
  }

  /** Nothing that mattered changed between the tables. */
  ghost predicate SameRecord(t: Table, u: Table, now: int, l: Limits) {
    && (forall c: Client :: LogIn(u, c) == LogIn(t, c))
    && StillCounting(u, now, l) == StillCounting(t, now, l)
  }

  ghost predicate AllCount(clients: seq<Client>, m: map<Client, seq<int>>, cutoff: int) {
    forall c :: c in clients && c in m ==> Counts(Of(m, c), cutoff)
  }

  lemma OneMoreCounts(clients: seq<Client>, t: Table, client: Client, now: int, l: Limits)
    requires AllCount(clients, t.failures, now - l.windowMs)
    ensures AllCount(clients + [client], LookAt(t, client, now, l).failures, now - l.windowMs)
    ensures LookAt(t, client, now, l).failures.Keys <= t.failures.Keys
  {
    ShiftedSameCounts(t, client, ExpiredOf(t.failures, client, now - l.windowMs), now, now - l.windowMs);
  }

  lemma {:induction false} LookAtAllKeepsOk(t: Table, clients: seq<Client>, now: int, l: Limits)
    requires Ok(t, l) && t.clock <= now
    ensures Ok(LookAtAll(t, clients, now, l), l) && LookAtAll(t, clients, now, l).clock == now
  {
    if clients == [] {
      KeptLater(t, now, l.maxFailures, l.windowMs);
    } else {
      LookAtAllKeepsOk(t, clients[..|clients| - 1], now, l);
      LookAtKeepsOk(LookAtAll(t, clients[..|clients| - 1], now, l), clients[|clients| - 1], now, l);
    }
  }

  lemma {:induction false} LookAtAllSameRecord(t: Table, clients: seq<Client>, now: int, l: Limits)
    ensures SameRecord(t, LookAtAll(t, clients, now, l), now, l)
  {
    if clients != [] {
      var u, last := LookAtAll(t, clients[..|clients| - 1], now, l), clients[|clients| - 1];
      LookAtAllSameRecord(t, clients[..|clients| - 1], now, l);
      LookAtSameLogs(u, last, now, l);
      LookAtSameLively(u, last, now, l);
    }
  }

  lemma {:induction false} LookAtAllCount(t: Table, clients: seq<Client>, now: int, l: Limits)
    ensures var u := LookAtAll(t, clients, now, l);
      u.failures.Keys <= t.failures.Keys && AllCount(clients, u.failures, now - l.windowMs)
  {
    if clients != [] {
      var front, last := clients[..|clients| - 1], clients[|clients| - 1];
      LookAtAllCount(t, front, now, l);
      OneMoreCounts(front, LookAtAll(t, front, now, l), last, now, l);
      assert clients == front + [last];
    }
  }

  lemma AllOfThemCount(u: Table, clients: seq<Client>, now: int, l: Limits)
    requires Ordered(u.clients, u.failures) && AllCount(clients, u.failures, now - l.windowMs)
    requires forall c :: c in u.failures ==> c in clients
    ensures StillCounting(u, now, l) == u.clients
  {
    LivelyOfLively(u.clients, u.failures, now - l.windowMs);
  }

  /** What is left after looking at all of them. */
  ghost predicate Pruned(t: Table, u: Table, now: int, l: Limits) {
    && Ok(u, l) && u.clock == now && SameRecord(t, u, now, l)
    && u.clients == StillCounting(t, now, l)
  }

  /** After looking at all of them, exactly the clients that still count are left. */
  lemma LookAtAllPrunes(t: Table, now: int, l: Limits)
    requires Ok(t, l) && t.clock <= now
    ensures Pruned(t, LookAtAll(t, t.clients, now, l), now, l)
  {
    LookAtAllKeepsOk(t, t.clients, now, l);
    LookAtAllSameRecord(t, t.clients, now, l);
    LookAtAllCount(t, t.clients, now, l);
    AllOfThemCount(LookAtAll(t, t.clients, now, l), t.clients, now, l);
  }

  // ---- Making room, and recording ----

  ghost function EvictFirst(u: Table, l: Limits): Table {
    if |u.clients| >= l.maxClients && u.clients != [] then Removed(u, u.clients[0]) else u
  }

  ghost function MakeRoom(t: Table, now: int, l: Limits): Table {
    EvictFirst(LookAtAll(t, t.clients, now, l), l)
  }

  /** Who has to go to make room: nobody, unless the map is full of clients that still count, and then
      the one of them that came first. */
  ghost function FirstOut(t: Table, now: int, l: Limits): Option<Client> {
    var still := StillCounting(t, now, l);
    if |still| >= l.maxClients && still != [] then Some(still[0]) else None
  }

  /** Who has to go for a client that records a failure: nobody unless the client is new. */
  ghost function Evicted(t: Table, client: Client, now: int, l: Limits): Option<Client> {
    if client in StillCounting(t, now, l) then None else FirstOut(t, now, l)
  }

  /** There is room, and one client at most lost its history. */
  ghost predicate HasRoom(t: Table, u: Table, gone: Option<Client>, now: int, l: Limits) {
    && Ok(u, l) && u.clock == now && |u.clients| < l.maxClients
    && forall c: Client :: LogIn(u, c) == if gone == Some(c) then [] else LogIn(t, c)
  }

  lemma RemovedLogs(t: Table, c: Client)
    ensures forall x: Client :: LogIn(Removed(t, c), x) == if x == c then [] else LogIn(t, x)
  {
  }

  lemma EvictFirstKeepsOk(u: Table, l: Limits)
    requires Ok(u, l)
    ensures Ok(EvictFirst(u, l), l) && |EvictFirst(u, l).clients| < l.maxClients
    ensures EvictFirst(u, l).clients == if |u.clients| >= l.maxClients then u.clients[1..] else u.clients
  {
    if |u.clients| >= l.maxClients {
      RemovedKeepsOk(u, l, u.clients[0]);
      WithoutFirst(u.clients);
    }
  }

  lemma EvictFirstLogs(t: Table, u: Table, now: int, l: Limits)
    requires SameRecord(t, u, now, l) && u.clients == StillCounting(t, now, l)
    ensures forall c: Client :: LogIn(EvictFirst(u, l), c) == if FirstOut(t, now, l) == Some(c) then [] else LogIn(t, c)
  {
    if |u.clients| >= l.maxClients && u.clients != [] { RemovedLogs(u, u.clients[0]); }
  }

  lemma EvictFirstMakesRoom(t: Table, u: Table, now: int, l: Limits)
    requires Pruned(t, u, now, l)
    ensures HasRoom(t, EvictFirst(u, l), FirstOut(t, now, l), now, l)
    ensures EvictFirst(u, l).failures.Keys <= u.failures.Keys
  {
    EvictFirstKeepsOk(u, l);
    EvictFirstLogs(t, u, now, l);
  }

  lemma MakeRoomKeeps(t: Table, now: int, l: Limits)
    requires Ok(t, l) && t.clock <= now
    ensures HasRoom(t, MakeRoom(t, now, l), FirstOut(t, now, l), now, l)
    ensures forall c :: c in MakeRoom(t, now, l).failures ==> c in StillCounting(t, now, l)
  {
    LookAtAllPrunes(t, now, l);
    EvictFirstMakesRoom(t, LookAtAll(t, t.clients, now, l), now, l);
  }

  ghost function Pushed(t: Table, client: Client, now: int): Table {
    Table(if client in t.failures then t.clients else t.clients + [client],
          t.failures[client := Of(t.failures, client) + [now]],
          t.histories[client := HistoryOf(t.histories, client).Grown(now)], t.clock)
  }

  lemma PushedKeepsOk(t: Table, client: Client, now: int, l: Limits)
    requires Ok(t, l) && t.clock == now && |Of(t.failures, client)| < l.maxFailures
    requires client in t.failures || |t.clients| < l.maxClients
    ensures Ok(Pushed(t, client, now), l)
  {
    var h := HistoryOf(t.histories, client);
    assert h.Good(now, l.maxFailures, l.windowMs) && h.kept == Of(t.failures, client);
    GoodGrown(h, now, l.maxFailures, l.windowMs);
    if client !in t.failures { DistinctAppend(t.clients, client); }
  }

  lemma PushedLogs(t: Table, client: Client, now: int)
    ensures LogIn(Pushed(t, client, now), client) == LogIn(t, client) + [now]
    ensures forall c: Client :: c != client ==> LogIn(Pushed(t, client, now), c) == LogIn(t, c)
  {
  }

  lemma ShiftedHolds(t: Table, client: Client, n: nat, now: int, cutoff: int)
    requires IsCut(Of(t.failures, client), n, cutoff)
    ensures Of(Shifted(t, client, n, now).failures, client) == Of(t.failures, client)[n..]
    ensures client in Shifted(t, client, n, now).failures <==> n < |Of(t.failures, client)|
    ensures client in Shifted(t, client, n, now).failures <==> Counts(Of(t.failures, client), cutoff)
  {
    CutCounts(Of(t.failures, client), n, cutoff);
  }

  lemma LookAtHolds(t: Table, client: Client, now: int, l: Limits)
    requires Ordered(t.clients, t.failures)
    ensures client in LookAt(t, client, now, l).failures <==> client in StillCounting(t, now, l)
    ensures Of(LookAt(t, client, now, l).failures, client) == Active(Of(t.failures, client), now - l.windowMs)
  {
    ShiftedHolds(t, client, ExpiredOf(t.failures, client, now - l.windowMs), now, now - l.windowMs);
    LivelyAreListed(t.clients, t.failures, now - l.windowMs);
  }

  /** What a recorded failure does to the histories: one more for its client if there was room, none
      left for the evicted one, and nothing else. */
  ghost predicate OneMoreFailure(t: Table, u: Table, client: Client, now: int, l: Limits) {
    && LogIn(u, client) == LogIn(t, client)
         + (if Allowed(Of(t.failures, client), l.maxFailures, l.windowMs, now) then [now] else [])
    && forall c: Client :: c != client ==>
         LogIn(u, c) == if Evicted(t, client, now, l) == Some(c) then [] else LogIn(t, c)
  }

  ghost function PushIfRoom(v: Table, client: Client, now: int, l: Limits): Table {
    if |Of(v.failures, client)| < l.maxFailures then Pushed(v, client, now) else v
  }

  ghost predicate Recording(t: Table, r: Table, client: Client, now: int, l: Limits) {
    Ok(r, l) && r.clock == now && OneMoreFailure(t, r, client, now, l)
  }

  lemma PushKeepsOk(v: Table, client: Client, now: int, l: Limits)
    requires Ok(v, l) && v.clock == now && (client in v.failures || |v.clients| < l.maxClients)
    ensures Ok(PushIfRoom(v, client, now, l), l) && PushIfRoom(v, client, now, l).clock == now
  {
    if |Of(v.failures, client)| < l.maxFailures { PushedKeepsOk(v, client, now, l); }
  }

  lemma PushAdds(t: Table, v: Table, client: Client, now: int, l: Limits)
    requires |Of(v.failures, client)| == |Active(Of(t.failures, client), now - l.windowMs)|
    requires LogIn(v, client) == LogIn(t, client)
    requires forall c: Client :: c != client ==>
      LogIn(v, c) == if Evicted(t, client, now, l) == Some(c) then [] else LogIn(t, c)
    ensures OneMoreFailure(t, PushIfRoom(v, client, now, l), client, now, l)
  {
    PushedLogs(v, client, now);
  }

  /** The table after a first look, which changes nothing about who still counts. */
  ghost predicate LookedAt(t: Table, u: Table, client: Client, now: int, l: Limits) {
    && Ok(u, l) && u.clock == now && SameRecord(t, u, now, l)
    && (client in u.failures <==> client in StillCounting(t, now, l))
    && Of(u.failures, client) == Active(Of(t.failures, client), now - l.windowMs)
  }

  lemma LookAtLooks(t: Table, client: Client, now: int, l: Limits)
    requires Ok(t, l) && t.clock <= now
    ensures LookedAt(t, LookAt(t, client, now, l), client, now, l)
  {
    LookAtKeepsOk(t, client, now, l);
    LookAtSameLogs(t, client, now, l);
    LookAtSameLively(t, client, now, l);
    LookAtHolds(t, client, now, l);
  }

  lemma RoomKeeps(t: Table, u: Table, client: Client, now: int, l: Limits)
    requires LookedAt(t, u, client, now, l) && client !in u.failures
    ensures Recording(t, PushIfRoom(MakeRoom(u, now, l), client, now, l), client, now, l)
  {
    MakeRoomKeeps(u, now, l);
    RoomThenPush(t, u, MakeRoom(u, now, l), client, now, l);
  }

  lemma RoomThenPush(t: Table, u: Table, v: Table, client: Client, now: int, l: Limits)
    requires LookedAt(t, u, client, now, l) && client !in u.failures && client !in v.failures
    requires HasRoom(u, v, FirstOut(u, now, l), now, l)
    ensures Recording(t, PushIfRoom(v, client, now, l), client, now, l)
  {
    assert FirstOut(u, now, l) == Evicted(t, client, now, l) != Some(client);
    PushKeepsOk(v, client, now, l);
    PushAdds(t, v, client, now, l);
  }

  ghost function Recorded(t: Table, client: Client, now: int, l: Limits): Table {
    var u := LookAt(t, client, now, l);
    PushIfRoom(if client in u.failures then u else MakeRoom(u, now, l), client, now, l)
  }

  lemma RecordedKeeps(t: Table, client: Client, now: int, l: Limits)
    requires Ok(t, l) && t.clock <= now
    ensures Recording(t, Recorded(t, client, now, l), client, now, l)
  {
    var u := LookAt(t, client, now, l);
    LookAtLooks(t, client, now, l);
    if client in u.failures {
      PushKeepsOk(u, client, now, l);
      PushAdds(t, u, client, now, l);
    } else {
      RoomKeeps(t, u, client, now, l);
    }
  }

  /** A failure recorded after the check is as if recorded without it. */
  lemma LookedAgain(t: Table, r: Table, client: Client, now: int, l: Limits)
    requires Ok(t, l) && t.clock <= now
    requires OneMoreFailure(LookAt(t, client, now, l), r, client, now, l)
    ensures OneMoreFailure(t, r, client, now, l)
  {
    LookAtLooks(t, client, now, l);
    AllowedAgain(Of(t.failures, client), now, l);
    AfterALook(t, LookAt(t, client, now, l), r, client, now, l);
  }

  lemma AllowedAgain(failures: seq<int>, now: int, l: Limits)
    ensures Allowed(Active(failures, now - l.windowMs), l.maxFailures, l.windowMs, now)
       <==> Allowed(failures, l.maxFailures, l.windowMs, now)
  {
    CutTwice(failures, now - l.windowMs);
  }

  lemma AfterALook(t: Table, u: Table, r: Table, client: Client, now: int, l: Limits)
    requires SameRecord(t, u, now, l) && OneMoreFailure(u, r, client, now, l)
    requires Allowed(Of(u.failures, client), l.maxFailures, l.windowMs, now)
        <==> Allowed(Of(t.failures, client), l.maxFailures, l.windowMs, now)
    ensures OneMoreFailure(t, r, client, now, l)
  {
    assert Evicted(u, client, now, l) == Evicted(t, client, now, l);
  }
}
