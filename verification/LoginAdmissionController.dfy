/** The login limiter itself, proved to take the table's steps, and what it promises. */
module LoginAdmissionController {
  import opened Common
  import opened LoginAdmission
  import opened Wrappers

  datatype Decision = Admitted | TurnedAway(retryAfterSeconds: int)

  datatype Outcome = Welcome | WrongPassword | TooMany(retryAfterSeconds: int)

  class LoginAdmissionController {
    const maxFailures: nat
    const windowMs: nat
    const maxClients: nat
    /** The map's keys in insertion order, and its entries. */
    var clients: seq<Client>
    var failuresByClient: map<Client, seq<int>>
    /** Every failed password of each client since it was last reset or evicted, and the clock. */
    ghost var histories: map<Client, History>
    ghost var clock: int

    ghost function Settings(): Limits {
      Limits(maxFailures, windowMs, maxClients)
    }

    ghost function Now(): Table reads this {
      Table(clients, failuresByClient, histories, clock)
    }

    ghost predicate Valid() reads this {
      Ok(Now(), Settings())
    }

    /** Every failed password of a client since it was last reset or evicted. */
    ghost function LogOf(client: Client): seq<int> reads this {
      LogIn(Now(), client)
    }

    constructor (maxFailures: nat, windowMs: nat, maxClients: nat, now: int)
      requires maxFailures >= 1
      ensures Valid() && clients == [] && failuresByClient == map[] && histories == map[] && clock == now
      ensures this.maxFailures == maxFailures && this.windowMs == windowMs
      ensures this.maxClients == if maxClients >= 1 then maxClients else 1
    {
      this.maxFailures, this.windowMs := maxFailures, windowMs;
      this.maxClients := if maxClients >= 1 then maxClients else 1;
      clients, failuresByClient, histories, clock := [], map[], map[], now;
    }

    /** Drops what has left the window; a client without failures leaves the map. */
    method ActiveFailures(client: Client, now: int) returns (failures: Option<seq<int>>)
      requires Valid() && now >= clock
      modifies this
      ensures Valid() && Now() == LookAt(old(Now()), client, now, Settings())
      ensures forall c: Client :: LogOf(c) == old(LogOf(c))
      ensures failures == if client in failuresByClient then Some(failuresByClient[client]) else None
    {
      LookAtKeepsOk(Now(), client, now, Settings());
      LookAtSameLogs(Now(), client, now, Settings());
      ghost var after := LookAt(Now(), client, now, Settings());
      DropClient(client, now);
      histories, clock := after.histories, now;
      failures := if client in failuresByClient then Some(failuresByClient[client]) else None;
    }

    /** The map part of it: shift the list, and delete it when nothing is left. */
    method DropClient(client: Client, now: int)
      modifies `clients, `failuresByClient
      ensures clients == LookAt(old(Now()), client, now, Settings()).clients
      ensures failuresByClient == LookAt(old(Now()), client, now, Settings()).failures
    {
      if client in failuresByClient {
        var active := ShiftExpired(failuresByClient[client], now - windowMs);
        if active == [] {
          Remove(client);
        } else {
          failuresByClient := failuresByClient[client := active];
        }
      }
    }

    static method ShiftExpired(failures: seq<int>, cutoff: int) returns (active: seq<int>)
      ensures active == Active(failures, cutoff)
    {
      active := failures;
      ghost var i := 0;
      while active != [] && active[0] <= cutoff
        invariant i <= |failures| && active == failures[i..]
            && Expired(failures, cutoff, 0) == Expired(failures, cutoff, i)
        decreases |active|
      {
        active := active[1..];
        i := i + 1;
      }
    }

    /** `delete`: the entry and its place. */
    method Remove(client: Client)
      modifies `clients, `failuresByClient
      ensures failuresByClient == old(failuresByClient) - {client} && clients == Without(old(clients), client)
    {
      clients := Without(clients, client);
      failuresByClient := failuresByClient - {client};
    }

    method Check(client: Client, now: int) returns (d: Decision)
      requires Valid() && now >= clock
      modifies this
      ensures Valid() && Now() == LookAt(old(Now()), client, now, Settings())
      ensures forall c: Client :: LogOf(c) == old(LogOf(c))
      ensures d.Admitted? <==> Allowed(Of(old(failuresByClient), client), maxFailures, windowMs, now)
      ensures d.TurnedAway? ==>
        var active := Active(Of(old(failuresByClient), client), now - windowMs);
        active != [] && d.retryAfterSeconds == RetryAfterSeconds(active, windowMs, now)
    {
      LookAtLooks(Now(), client, now, Settings());
      var failures := ActiveFailures(client, now);
      if failures.None? || |failures.value| < maxFailures {
        return Admitted;
      }
      return TurnedAway(RetryAfterSeconds(failures.value, windowMs, now));
    }

    /** Expired failures of every client go, and with them the clients that have no other. */
    method DropAllExpired(now: int)
      requires Valid() && now >= clock
      modifies this
      ensures Now() == LookAtAll(old(Now()), old(clients), now, Settings())
      ensures Valid() && Pruned(old(Now()), Now(), now, Settings())
    {
      LookAtAllPrunes(Now(), now, Settings());
      DropEach(clients, now);
    }

    /** The loop over the keys. */
    method DropEach(keys: seq<Client>, now: int)
      requires Valid() && now >= clock
      modifies this
      ensures Now() == LookAtAll(old(Now()), keys, now, Settings())
    {
      ghost var before := Now();
      clock := now;
      var i := 0;
      while i < |keys|
        invariant i <= |keys| && Now() == LookAtAll(before, keys[..i], now, Settings())
      {
        DropNext(before, keys[..i], keys[i], now);
        assert keys[..i + 1] == keys[..i] + [keys[i]];
        i := i + 1;
      }
      assert keys[..i] == keys;
    }

    method DropNext(ghost before: Table, ghost done: seq<Client>, client: Client, now: int)
      requires Ok(before, Settings()) && before.clock <= now && Now() == LookAtAll(before, done, now, Settings())
      modifies this
      ensures Now() == LookAtAll(before, done + [client], now, Settings())
    {
      LookAtAllKeepsOk(before, done, now, Settings());
      assert (done + [client])[..|done|] == done;
      var _ := ActiveFailures(client, now);
    }

    /** Room for one more client: expired ones go first, and then the oldest one, if the map is full of
        clients that still count. */
    method EnsureClientCapacity(now: int)
      requires Valid() && now >= clock
      modifies this
      ensures Valid() && Now() == MakeRoom(old(Now()), now, Settings())
      ensures |clients| < maxClients
      ensures var out := FirstOut(old(Now()), now, Settings());
        forall c: Client :: LogOf(c) == if out == Some(c) then [] else old(LogOf(c))
    {
      MakeRoomKeeps(Now(), now, Settings());
      DropAllExpired(now);
      EvictToFit();
    }

    /** The clients that came first leave, and their histories with them: one at most. */
    method EvictToFit()
      requires Valid()
      modifies this
      ensures Valid() && |clients| < maxClients && Now() == EvictFirst(old(Now()), Settings())
      ensures clients == if old(|clients|) >= maxClients then old(clients)[1..] else old(clients)
    {
      EvictFirstKeepsOk(Now(), Settings());
      ghost var after := EvictFirst(Now(), Settings());
      while |clients| >= maxClients
        invariant Now() == old(Now()) || (Now() == after && |clients| < maxClients)
        decreases |clients|
      {
        histories := histories - {clients[0]};
        Remove(clients[0]);
      }
    }

    /** A client's failure is recorded while there is room for it. Nobody else is forgotten, but for the
        client that has to go when this one is new and the map is full of clients that still count. */
    method RecordFailure(client: Client, now: int)
      requires Valid() && now >= clock
      modifies this
      ensures Valid() && clock == now && Now() == Recorded(old(Now()), client, now, Settings())
      ensures OneMoreFailure(old(Now()), Now(), client, now, Settings())
    {
      RecordedKeeps(Now(), client, now, Settings());
      var failures := ActiveFailures(client, now);
      if failures.None? {
        EnsureClientCapacity(now);
      }
      if |Of(failuresByClient, client)| < maxFailures {
        Append(client, now);
      }
    }

    /** `push`: a new client's list begins with it. */
    method Append(client: Client, now: int)
      modifies this
      ensures Now() == Pushed(old(Now()), client, now)
    {
      histories := histories[client := HistoryOf(histories, client).Grown(now)];
      if client !in failuresByClient {
        clients := clients + [client];
      }
      failuresByClient := failuresByClient[client := Of(failuresByClient, client) + [now]];
    }

    /** Clears one client, or all of them. */
    method Reset(client: Option<Client>)
      requires Valid()
      modifies this
      ensures Valid() && clock == old(clock)
      ensures forall c: Client :: LogOf(c) == if client.None? || client == Some(c) then [] else old(LogOf(c))
      ensures forall c :: c in failuresByClient ==>
        client.Some? && client.value != c && c in old(failuresByClient)
            && failuresByClient[c] == old(failuresByClient[c])
    {
      if client.None? {
        clients, failuresByClient, histories := [], map[], map[];
      } else {
        RemovedKeepsOk(Now(), Settings(), client.value);
        histories := histories - {client.value};
        Remove(client.value);
      }
    }

    /**
     One login as the router makes it, in one turn: check, verify, record. A client in too many failures
     is turned away unverified; a wrong password is always recorded; a right one clears the record.
     */
    method Attempt(client: Client, passwordOk: bool, now: int) returns (r: Outcome)
      requires Valid() && now >= clock
      modifies this
      ensures Valid() && clock == now
      ensures r.TooMany? <==> !Allowed(Of(old(failuresByClient), client), maxFailures, windowMs, now)
      ensures r.TooMany? ==>
        r.retryAfterSeconds ==
            RetryAfterSeconds(Active(Of(old(failuresByClient), client), now - windowMs), windowMs, now)
      ensures r.TooMany? ==> forall c: Client :: LogOf(c) == old(LogOf(c))
      ensures r.WrongPassword? ==> !passwordOk && OneMoreFailure(old(Now()), Now(), client, now, Settings())
      ensures r.WrongPassword? ==> LogOf(client) == old(LogOf(client)) + [now]
      ensures r.Welcome? ==> passwordOk && forall c: Client :: LogOf(c) == if c == client then [] else old(LogOf(c))
    {
      var admission := Check(client, now);
      if admission.TurnedAway? {
        return TooMany(admission.retryAfterSeconds);
      }
      if !passwordOk {
        RecordFailure(client, now);
        LookedAgain(old(Now()), Now(), client, now, Settings());
        return WrongPassword;
      }
      Reset(Some(client));
      return Welcome;
    }
  }

  /** Whatever was attempted: at most `maxFailures` failed passwords of a client that was not reset or
      evicted lie within one window. */
  lemma NoWindowHoldsMore(controller: LoginAdmissionController, client: Client, i: nat, j: nat)
    requires controller.Valid()
    requires i <= j < |controller.LogOf(client)|
    requires controller.LogOf(client)[j] < controller.LogOf(client)[i] + controller.windowMs
    ensures j - i + 1 <= controller.maxFailures
  {
    assert HistoryOf(controller.histories, client).Good(controller.clock, controller.maxFailures, controller.windowMs);
    WindowHoldsAtMost(controller.LogOf(client), controller.maxFailures, controller.windowMs, i, j);
  }
}
