/**
 The store of recent stations, with the steps both backends are made of. In memory a search records
 first and expires afterwards; in the database it expires first. Both show the same strips.
 */
module LocationRecentStore {
  import opened LocationHistory
  import opened LocationRanking
  import opened LocationRecents
  import opened Wrappers

  /** The entries of one session and role. */
  ghost function CodesIn(keys: set<RecentKey>, session: nat, role: Role): set<nat> {
    set k | k in keys && k.session == session && k.role == role :: k.code
  }

  ghost function Slice(entries: map<RecentKey, nat>, session: nat, role: Role): map<nat, Stat> {
    map c | c in CodesIn(entries.Keys, session, role) :: Stat(0, entries[RecentKey(session, role, c)])
  }

  lemma SliceIs(entries: map<RecentKey, nat>, session: nat, role: Role, m: map<nat, Stat>)
    requires forall c: nat :: c in m <==> RecentKey(session, role, c) in entries
    requires forall c: nat :: c in m ==> m[c] == Stat(0, entries[RecentKey(session, role, c)])
    ensures Slice(entries, session, role) == m
  {
    forall c: nat ensures c in CodesIn(entries.Keys, session, role) <==> RecentKey(session, role, c) in entries {
      InSlice(entries, session, role, c);
    }
  }

  lemma InSlice(entries: map<RecentKey, nat>, session: nat, role: Role, c: nat)
    ensures c in CodesIn(entries.Keys, session, role) <==> RecentKey(session, role, c) in entries
  {
    var k := RecentKey(session, role, c);
    assert k in entries.Keys ==> k.code in CodesIn(entries.Keys, session, role);
  }

  lemma AllInSlice(entries: map<RecentKey, nat>, session: nat, role: Role)
    ensures forall c: nat :: c in Slice(entries, session, role) <==> RecentKey(session, role, c) in entries
  {
    forall c: nat ensures c in Slice(entries, session, role) <==> RecentKey(session, role, c) in entries {
      InSlice(entries, session, role, c);
    }
  }

  /** What is kept of one session and role are the best three of its unexpired history. */
  ghost predicate Keeps(entries: map<RecentKey, nat>, h: seq<RecentUse>, since: int, session: nat, role: Role) {
    IsBest(Since(Lasts(h, session, role), since), Slice(entries, session, role))
  }

  ghost predicate UsedBy(h: seq<RecentUse>, clock: nat) {
    forall i :: 0 <= i < |h| ==> h[i].at <= clock
  }

  lemma {:induction false} LastsAreUses(h: seq<RecentUse>, clock: nat, session: nat, role: Role)
    requires UsedBy(h, clock)
    ensures forall c :: c in Lasts(h, session, role) ==> Lasts(h, session, role)[c] <= clock
  {
    if h != [] {
      LastsAreUses(h[..|h| - 1], clock, session, role);
    }
  }

  function Touched(entries: map<RecentKey, nat>, key: RecentKey, now: nat): map<RecentKey, nat> {
    entries[key := if key in entries && entries[key] > now then entries[key] else now]
  }

  /** Only the first three of the session and role stay; others are not looked at. */
  function Trimmed(entries: map<RecentKey, nat>, session: nat, role: Role, r: seq<nat>): map<RecentKey, nat> {
    map k | k in entries && (k.session == session && k.role == role ==> k.code in r) :: entries[k]
  }

  function Unexpired(entries: map<RecentKey, nat>, since: int): map<RecentKey, nat> {
    map k | k in entries && entries[k] >= since :: entries[k]
  }

  lemma SliceOfTouched(entries: map<RecentKey, nat>, key: RecentKey, now: nat)
    requires key in entries ==> entries[key] <= now
    ensures Slice(Touched(entries, key, now), key.session, key.role) ==
        Slice(entries, key.session, key.role)[key.code := Stat(0, now)]
  {
    AllInSlice(entries, key.session, key.role);
    SliceIs(Touched(entries, key, now), key.session, key.role,
        Slice(entries, key.session, key.role)[key.code := Stat(0, now)]);
  }

  lemma SliceOfTrimmed(entries: map<RecentKey, nat>, session: nat, role: Role, r: seq<nat>)
    ensures Slice(Trimmed(entries, session, role, r), session, role) == Picked(Slice(entries, session, role), r)
  {
    AllInSlice(entries, session, role);
    SliceIs(Trimmed(entries, session, role, r), session, role, Picked(Slice(entries, session, role), r));
  }

  lemma SliceOfOther(entries: map<RecentKey, nat>, key: RecentKey, now: nat, r: seq<nat>, session: nat, role: Role)
    requires session != key.session || role != key.role
    ensures Slice(Trimmed(Touched(entries, key, now), key.session, key.role, r), session, role) ==
        Slice(entries, session, role)
  {
    AllInSlice(entries, session, role);
    SliceIs(Trimmed(Touched(entries, key, now), key.session, key.role, r), session, role,
        Slice(entries, session, role));
  }

  lemma SliceOfUnexpired(entries: map<RecentKey, nat>, since: int, session: nat, role: Role)
    ensures Slice(Unexpired(entries, since), session, role) == Younger(Slice(entries, session, role), since)
  {
    AllInSlice(entries, session, role);
    SliceIs(Unexpired(entries, since), session, role, Younger(Slice(entries, session, role), since));
  }

  lemma LastsAfterUse(h: seq<RecentUse>, key: RecentKey, now: nat, session: nat, role: Role)
    ensures Lasts(h + [RecentUse(key, now)], session, role) ==
            if key.session == session && key.role == role then Lasts(h, session, role)[key.code := now]
            else Lasts(h, session, role)
  {
    assert (h + [RecentUse(key, now)])[..|h|] == h;
  }

  lemma SinceAfterUse(lasts: map<nat, nat>, since: int, c: nat, now: nat)
    requires since <= now
    ensures Since(lasts[c := now], since) == Since(lasts, since)[c := Stat(0, now)]
  {
  }

  lemma KeepsAfterUse(entries: map<RecentKey, nat>, h: seq<RecentUse>, since: int, key: RecentKey, now: nat,
      r: seq<nat>)
    requires Keeps(entries, h, since, key.session, key.role) && UsedBy(h, now) && since <= now
    requires key in entries ==> entries[key] <= now
    requires IsTop(Slice(Touched(entries, key, now), key.session, key.role), CARD_LIMIT, r)
    ensures Keeps(Trimmed(Touched(entries, key, now), key.session, key.role, r), h + [RecentUse(key, now)], since,
        key.session, key.role)
  {
    var lasts := Lasts(h, key.session, key.role);
    SliceOfTouched(entries, key, now);
    SliceOfTrimmed(Touched(entries, key, now), key.session, key.role, r);
    LastsAreUses(h, now, key.session, key.role);
    LastsAfterUse(h, key, now, key.session, key.role);
    SinceAfterUse(lasts, since, key.code, now);
    BestAfterUse(Since(lasts, since), Slice(entries, key.session, key.role), key.code, Stat(0, now), r);
  }

  lemma OthersAfterUse(entries: map<RecentKey, nat>, h: seq<RecentUse>, since: int, key: RecentKey, now: nat,
      r: seq<nat>, session: nat, role: Role)
    requires Keeps(entries, h, since, session, role) && (session != key.session || role != key.role)
    ensures Keeps(Trimmed(Touched(entries, key, now), key.session, key.role, r), h + [RecentUse(key, now)], since,
        session, role)
  {
    SliceOfOther(entries, key, now, r, session, role);
    LastsAfterUse(h, key, now, session, role);
  }

  lemma KeepsAfterExpiry(entries: map<RecentKey, nat>, h: seq<RecentUse>, since: int, later: int, session: nat,
      role: Role)
    requires Keeps(entries, h, since, session, role) && since <= later
    ensures Keeps(Unexpired(entries, later), h, later, session, role)
  {
    SliceOfUnexpired(entries, later, session, role);
    assert Since(Lasts(h, session, role), later) == Younger(Since(Lasts(h, session, role), since), later);
    BestAfterExpiry(Since(Lasts(h, session, role), since), Slice(entries, session, role), later);
  }

  lemma NothingKept(since: int)
    ensures KeepsAll(map[], [], since)
  {
    forall session: nat, role: Role ensures Keeps(map[], [], since, session, role) {
      SliceIs(map[], session, role, map[]);
    }
  }

  lemma AllKeptAfterExpiry(entries: map<RecentKey, nat>, h: seq<RecentUse>, since: int, later: int)
    requires KeepsAll(entries, h, since) && since <= later
    ensures KeepsAll(Unexpired(entries, later), h, later)
  {
    forall session: nat, role: Role ensures Keeps(Unexpired(entries, later), h, later, session, role) {
      KeepsAfterExpiry(entries, h, since, later, session, role);
    }
  }

  ghost predicate KeepsAll(entries: map<RecentKey, nat>, h: seq<RecentUse>, since: int) {
    forall session: nat, role: Role :: Keeps(entries, h, since, session, role)
  }

  /** What is kept is what there is to keep. */
  lemma KeptIsWanted(entries: map<RecentKey, nat>, h: seq<RecentUse>, since: int)
    requires KeepsAll(entries, h, since)
    ensures entries.Keys == Wanted(h, since) && |entries| == |Wanted(h, since)|
  {
    forall k: RecentKey ensures k in entries <==> k in Wanted(h, since) {
      var full := Since(Lasts(h, k.session, k.role), since);
      assert Keeps(entries, h, since, k.session, k.role);
      AllInSlice(entries, k.session, k.role);
      BestHaveFewAhead(full, Slice(entries, k.session, k.role), k.code);
      if k.code in full { LastsAreOfHistory(h, k); }
    }
    CardOfMap(entries);
  }

  /** The order of the global trim: latest first, then session, role and code; `destination` sorts
      before `origin`. */
  predicate Before(entries: map<RecentKey, nat>, a: RecentKey, b: RecentKey)
    requires a in entries && b in entries
  {
    if entries[a] != entries[b] then entries[a] > entries[b]
    else if a.session != b.session then a.session < b.session
    else if a.role != b.role then a.role == Destination
    else a.code < b.code
  }

  /** Used later; or as late and of an earlier session, or of it as a destination against an origin, or of an
      earlier code. */
  predicate Outlives(k: RecentKey, at: nat, d: RecentKey, other: nat) {
    || at > other
    || (at == other && k.session < d.session)
    || (at == other && k.session == d.session && k.role == Destination && d.role == Origin)
    || (at == other && k.session == d.session && k.role == d.role && k.code < d.code)
  }

  method LastOf(entries: map<RecentKey, nat>) returns (worst: RecentKey)
    requires entries != map[]
    ensures worst in entries && forall k :: k in entries && k != worst ==> Before(entries, k, worst)
  {
    var left := entries.Keys;
    worst :| worst in left;
    left := left - {worst};
    while left != {}
      invariant left <= entries.Keys && worst in entries && worst !in left
      invariant forall k :: k in entries && k !in left && k != worst ==> Before(entries, k, worst)
      decreases |left|
    {
      var k :| k in left;
      left := left - {k};
      if Before(entries, worst, k) {
        worst := k;
      }
    }
  }

  ghost predicate Dated(entries: map<RecentKey, nat>, h: seq<RecentUse>, clock: nat, since: int) {
    && since <= clock
    && UsedBy(h, clock)
    && (forall k :: k in entries ==> entries[k] <= clock)
  }

  lemma ExpiredIsDated(entries: map<RecentKey, nat>, h: seq<RecentUse>, clock: nat, since: int, now: nat, later: int)
    requires Dated(entries, h, clock, since) && clock <= now && later <= now
    ensures Dated(Unexpired(entries, later), h, now, later)
    ensures |Unexpired(entries, later)| <= |entries|
  {
    SubsetIsSmaller(Unexpired(entries, later).Keys, entries.Keys);
    CardOfMap(entries);
    CardOfMap(Unexpired(entries, later));
  }

  lemma RecordedIsDated(entries: map<RecentKey, nat>, h: seq<RecentUse>, clock: nat, since: int, key: RecentKey,
      now: nat, r: seq<nat>)
    requires Dated(entries, h, clock, since) && clock <= now
    ensures Dated(Trimmed(Touched(entries, key, now), key.session, key.role, r), h + [RecentUse(key, now)], now, since)
  {
  }

  lemma RecordedSize(entries: map<RecentKey, nat>, key: RecentKey, now: nat, r: seq<nat>)
    ensures |Trimmed(Touched(entries, key, now), key.session, key.role, r)| <= |entries| + 1
  {
    var touched := Touched(entries, key, now);
    var kept := Trimmed(touched, key.session, key.role, r);
    CardOfMap(touched);
    CardOfMap(kept);
    CardOfMap(entries);
    assert touched.Keys == entries.Keys + {key};
    SubsetIsSmaller(kept.Keys, touched.Keys);
  }

  ghost predicate InOrder(entries: map<RecentKey, nat>, h: seq<RecentUse>, clock: nat, since: int, capReached: bool) {
    Dated(entries, h, clock, since) && (!capReached ==> KeepsAll(entries, h, since))
  }

  lemma ExpiryKeepsOrder(entries: map<RecentKey, nat>, h: seq<RecentUse>, clock: nat, since: int, capReached: bool,
      now: nat, later: int)
    requires InOrder(entries, h, clock, since, capReached) && clock <= now && since <= later <= now
    ensures InOrder(Unexpired(entries, later), h, now, later, capReached)
    ensures |Unexpired(entries, later)| <= |entries|
  {
    ExpiredIsDated(entries, h, clock, since, now, later);
    if !capReached { AllKeptAfterExpiry(entries, h, since, later); }
  }

  lemma StripIsTop(entries: map<RecentKey, nat>, h: seq<RecentUse>, since: int, session: nat, role: Role, limit: nat,
      r: seq<nat>)
    requires KeepsAll(entries, h, since) && limit <= CARD_LIMIT && IsTop(Slice(entries, session, role), limit, r)
    ensures IsTop(Since(Lasts(h, session, role), since), limit, r)
  {
    assert Keeps(entries, h, since, session, role);
    TopOfBestIsTop(Since(Lasts(h, session, role), since), Slice(entries, session, role), limit, r);
  }

  class RecentStore {
    const ttl: nat
    const maxEntries: nat
    var entries: map<RecentKey, nat>
    ghost var history: seq<RecentUse>
    ghost var clock: nat
    /** Entries older than this were dropped; anything in the window was dropped only by the cap. */
    ghost var since: int
    ghost var capReached: bool

    ghost predicate Valid() reads this {
      InOrder(entries, history, clock, since, capReached)
    }

    constructor (ttl: nat, maxEntries: nat)
      ensures Valid() && this.ttl == ttl && this.maxEntries == maxEntries
      ensures history == [] && entries == map[] && clock == 0 && since == 0 - ttl && !capReached
    {
      this.ttl, this.maxEntries := ttl, maxEntries;
      entries, history, clock, since, capReached := map[], [], 0, 0 - ttl, false;
      NothingKept(0 - ttl);
    }

    /** Notes the use and keeps the best three of its session and role. */
    method RecordOne(key: RecentKey, now: nat)
      requires Valid() && now >= clock
      modifies this
      ensures Valid() && history == old(history) + [RecentUse(key, now)] && clock == now
      ensures since == old(since) && capReached == old(capReached) && |entries| <= old(|entries|) + 1
      ensures exists r :: IsTop(Slice(Touched(old(entries), key, now), key.session, key.role), CARD_LIMIT, r)
                       && entries == Trimmed(Touched(old(entries), key, now), key.session, key.role, r)
    {
      var kept, r := TrimSessionRole(Touched(entries, key, now), key.session, key.role);
      if !capReached {
        RecordKeeps(entries, history, since, key, now, r);
      }
      RecordedIsDated(entries, history, clock, since, key, now, r);
      RecordedSize(entries, key, now, r);
      entries := kept;
      history := history + [RecentUse(key, now)];
      clock := now;
    }

    static method SliceOf(entries: map<RecentKey, nat>, session: nat, role: Role) returns (slice: map<nat, Stat>)
      ensures slice == Slice(entries, session, role)
    {
      var codes := set k | k in entries && k.session == session && k.role == role :: k.code;
      slice := map c | c in codes :: Stat(0, entries[RecentKey(session, role, c)]);
      AllInSlice(entries, session, role);
    }

    static method TrimSessionRole(entries: map<RecentKey, nat>, session: nat, role: Role)
        returns (kept: map<RecentKey, nat>, r: seq<nat>)
      ensures IsTop(Slice(entries, session, role), CARD_LIMIT, r) && kept == Trimmed(entries, session, role, r)
    {
      var slice := SliceOf(entries, session, role);
      r := TopOf(slice, CARD_LIMIT);
      kept := Trimmed(entries, session, role, r);
    }

    method Expire(now: nat)
      requires Valid() && now >= clock && since <= now - ttl
      modifies this
      ensures Valid() && history == old(history) && clock == now && since == now - ttl
      ensures entries == Unexpired(old(entries), now - ttl)
      ensures capReached == old(capReached) && |entries| <= old(|entries|)
    {
      var all, oldest := entries, now - ttl;
      var young := Unexpired(all, oldest);
      ExpiryKeepsOrder(all, history, clock, since, capReached, now, oldest);
      entries, clock, since := young, now, oldest;
      assert entries == young && clock == now && since == oldest;
      assert InOrder(entries, history, clock, since, capReached)
          == InOrder(young, history, now, oldest, capReached);
    }

    /** Above the cap, drops the entries that come last. */
    method TrimGlobally()
      requires Valid()
      modifies this
      ensures Valid() && history == old(history) && clock == old(clock) && since == old(since)
      ensures |entries| <= maxEntries && |entries| <= old(|entries|)
      ensures old(|entries|) <= maxEntries ==> entries == old(entries) && capReached == old(capReached)
      ensures old(|entries|) > maxEntries ==> |entries| == maxEntries && capReached
      ensures old(capReached) ==> capReached
      ensures entries.Keys <= old(entries).Keys && forall k :: k in entries ==> entries[k] == old(entries)[k]
      ensures forall k, d :: k in entries && d in old(entries) && d !in entries ==>
        Outlives(k, old(entries)[k], d, old(entries)[d])
    {
      var kept := CutTo(entries, maxEntries);
      capReached := capReached || |entries| > maxEntries;
      entries := kept;
    }

    static method CutTo(all: map<RecentKey, nat>, size: nat) returns (kept: map<RecentKey, nat>)
      ensures |kept| == (if |all| <= size then |all| else size) && (|all| <= size ==> kept == all)
      ensures kept.Keys <= all.Keys && forall k :: k in kept ==> kept[k] == all[k]
      ensures forall k, d :: k in kept && d in all && d !in kept ==> Before(all, k, d)
    {
      kept := all;
      while |kept| > size
        invariant |all| <= size ==> kept == all
        invariant |kept| <= |all| && (|all| > size ==> |kept| >= size)
        invariant kept.Keys <= all.Keys && forall k :: k in kept ==> kept[k] == all[k]
        invariant forall k, d :: k in kept && d in all && d !in kept ==> Before(all, k, d)
        decreases |kept|
      {
        var worst := LastOf(kept);
        assert forall k :: k in kept && k != worst ==> Before(all, k, worst);
        OneFewer(kept, worst);
        kept := kept - {worst};
      }
    }

    static lemma OneFewer(m: map<RecentKey, nat>, k: RecentKey)
      requires k in m
      ensures |m - {k}| == |m| - 1
    {
      assert (m - {k}).Keys == m.Keys - {k};
      CardOfMap(m);
      CardOfMap(m - {k});
    }

    lemma SizeIsWanted()
      requires Valid()
      ensures !capReached ==> |entries| == |Wanted(history, since)|
    {
      if !capReached {
        KeptIsWanted(entries, history, since);
      }
    }

    /** Expire, then the cap, which is not met when what there is to keep is within it. */
    method Prune(now: nat)
      requires Valid() && now >= clock && since <= now - ttl
      modifies this
      ensures Valid() && history == old(history) && clock == now && since == now - ttl
      ensures |entries| <= maxEntries && |entries| <= old(|entries|)
      ensures !old(capReached) && |Wanted(history, now - ttl)| <= maxEntries ==> !capReached
      ensures old(|entries|) <= maxEntries ==> capReached == old(capReached)
      ensures old(capReached) ==> capReached
    {
      Expire(now);
      SizeIsWanted();
      assert !old(capReached) && |Wanted(history, now - ttl)| <= maxEntries ==> |entries| <= maxEntries;
      TrimGlobally();
    }

    /** The strip of a session and role, as the complete history gives it. */
    method Read(session: nat, role: Role, limit: int, now: nat) returns (r: seq<nat>)
      requires Valid() && now >= clock && since <= now - ttl
      modifies this
      ensures Valid() && history == old(history) && clock == now && since == now - ttl
      ensures |entries| <= maxEntries
      ensures old(|entries|) <= maxEntries ==> capReached == old(capReached)
      ensures !capReached ==> IsTop(Since(Lasts(history, session, role), now - ttl), NormalizeLimit(limit), r)
    {
      Prune(now);
      var slice := SliceOf(entries, session, role);
      r := TopOf(slice, NormalizeLimit(limit));
      if !capReached {
        StripIsTop(entries, history, since, session, role, NormalizeLimit(limit), r);
      }
    }

    method RecordAll(session: nat, locations: seq<(Role, nat)>, now: nat)
      requires Valid() && now >= clock
      modifies this
      ensures Valid() && history == old(history) + RecentUses(session, locations, now)
      ensures clock >= old(clock) && clock <= now && since == old(since) && capReached == old(capReached)
      ensures |entries| <= old(|entries|) + |locations|
    {
      var i := 0;
      while i < |locations|
        invariant i <= |locations| && Valid() && old(clock) <= clock <= now
        invariant history == old(history) + RecentUses(session, locations[..i], now)
        invariant since == old(since) && capReached == old(capReached) && |entries| <= old(|entries|) + i
      {
        RecordOne(RecentKey(session, locations[i].0, locations[i].1), now);
        assert locations[..i + 1][..i] == locations[..i];
        i := i + 1;
      }
      assert locations[..i] == locations;
    }

    /** In memory: record, then expire, then the cap. */
    method RecordInMemory(session: Option<nat>, locations: seq<(Role, nat)>, now: nat)
      requires Valid() && now >= clock && since <= now - ttl
      modifies this
      ensures Valid() && history == old(history) + VisitUses(Visit(session, locations, now))
      ensures clock <= now && since <= now - ttl
      ensures !old(capReached) && |Wanted(history, now - ttl)| <= maxEntries ==> !capReached
      ensures old(capReached) ==> capReached
      ensures |entries| <= old(|entries|) + |locations| && (old(|entries|) <= maxEntries ==> |entries| <= maxEntries)
    {
      if session.Some? {
        RecordAll(session.value, locations, now);
      }
      Prune(now);
    }

    /** In the database: expire, record, and the cap; nothing at all for a session without a station. */
    method RecordPersisted(session: Option<nat>, locations: seq<(Role, nat)>, now: nat)
      requires Valid() && now >= clock && since <= now - ttl
      modifies this
      ensures Valid() && history == old(history) + VisitUses(Visit(session, locations, now))
      ensures clock <= now && since <= now - ttl
      ensures !old(capReached) && |Wanted(history, now - ttl)| <= maxEntries ==> !capReached
      ensures old(capReached) ==> capReached
      ensures |entries| <= old(|entries|) + |locations| && (old(|entries|) <= maxEntries ==> |entries| <= maxEntries)
    {
      if session.None? {
        Prune(now);
      } else if locations != [] {
        Expire(now);
        RecordAll(session.value, locations, now);
        SizeIsWanted();
        TrimGlobally();
      }
    }
  }

  ghost function RecentUses(session: nat, locations: seq<(Role, nat)>, now: nat): seq<RecentUse> {
    if locations == [] then []
    else
      var last := locations[|locations| - 1];
      RecentUses(session, locations[..|locations| - 1], now) + [RecentUse(RecentKey(session, last.0, last.1), now)]
  }

  /** A search that notes its stations, or a strip read on the way. */
  datatype Visit =
    | Visit(session: Option<nat>, locations: seq<(Role, nat)>, now: nat)
    | Look(viewer: nat, role: Role, limit: int, now: nat)

  ghost function VisitUses(v: Visit): seq<RecentUse> {
    if v.Visit? && v.session.Some? then RecentUses(v.session.value, v.locations, v.now) else []
  }

  lemma RecordKeeps(entries: map<RecentKey, nat>, h: seq<RecentUse>, since: int, key: RecentKey, now: nat, r: seq<nat>)
    requires KeepsAll(entries, h, since) && UsedBy(h, now) && since <= now
    requires key in entries ==> entries[key] <= now
    requires IsTop(Slice(Touched(entries, key, now), key.session, key.role), CARD_LIMIT, r)
    ensures KeepsAll(Trimmed(Touched(entries, key, now), key.session, key.role, r), h + [RecentUse(key, now)], since)
  {
    var after := Trimmed(Touched(entries, key, now), key.session, key.role, r);
    forall session: nat, role: Role ensures Keeps(after, h + [RecentUse(key, now)], since, session, role) {
      assert Keeps(entries, h, since, session, role);
      if session == key.session && role == key.role {
        KeepsAfterUse(entries, h, since, key, now, r);
      } else {
        OthersAfterUse(entries, h, since, key, now, r, session, role);
      }
    }
  }

  // ---- Both, over any run ----

  ghost function VisitsHistory(visits: seq<Visit>): seq<RecentUse> {
    if visits == [] then []
    else
      var v := visits[|visits| - 1];
      VisitsHistory(visits[..|visits| - 1]) + VisitUses(v)
  }

  /** The clock never goes back over the visits, up to now. */
  ghost predicate ClockNeverBack(visits: seq<Visit>, now: nat) {
    visits == [] ||
    (visits[|visits| - 1].now <= now && ClockNeverBack(visits[..|visits| - 1], visits[|visits| - 1].now))
  }

  /** After every search, the unexpired first three of all sessions and roles are within the cap. */
  ghost predicate WithinCap(visits: seq<Visit>, ttl: nat, maxEntries: nat) {
    visits == [] ||
    var v := visits[|visits| - 1];
    && WithinCap(visits[..|visits| - 1], ttl, maxEntries)
    && (v.Visit? ==> |Wanted(VisitsHistory(visits), v.now - ttl)| <= maxEntries)
  }

  ghost predicate InStep(store: RecentStore, file: RecentStore, h: seq<RecentUse>, clock: nat)
    reads store, file
  {
    && store.Valid() && file.Valid() && store.ttl == file.ttl && store.maxEntries == file.maxEntries
    && store.history == h && file.history == h && !store.capReached && !file.capReached
    && |store.entries| <= store.maxEntries && |file.entries| <= file.maxEntries
    && store.clock <= clock && file.clock <= clock && store.since <= clock - store.ttl && file.since <= clock - file.ttl
  }

  method VisitBoth(store: RecentStore, file: RecentStore, v: Visit, ghost h: seq<RecentUse>, ghost clock: nat)
    requires store != file && InStep(store, file, h, clock) && clock <= v.now
    requires v.Visit? ==> |Wanted(h + VisitUses(v), v.now - store.ttl)| <= store.maxEntries
    modifies store, file
    ensures InStep(store, file, h + VisitUses(v), v.now)
  {
    match v
    case Visit(session, locations, now) =>
      store.RecordInMemory(session, locations, now);
      file.RecordPersisted(session, locations, now);
    case Look(viewer, role, limit, now) =>
      assert h + VisitUses(v) == h;
      var _, _ := ReadBoth(store, file, viewer, role, limit, now, h, clock);
  }

  method ReadBoth(store: RecentStore, file: RecentStore, session: nat, role: Role, limit: int, now: nat,
                  ghost h: seq<RecentUse>, ghost clock: nat)
      returns (memory: seq<nat>, persisted: seq<nat>)
    requires store != file && InStep(store, file, h, clock) && clock <= now
    modifies store, file
    ensures InStep(store, file, h, now) && memory == persisted
    ensures IsTop(Since(Lasts(h, session, role), now - store.ttl), NormalizeLimit(limit), memory)
  {
    memory := store.Read(session, role, limit, now);
    persisted := file.Read(session, role, limit, now);
    TopIsUnique(Since(Lasts(h, session, role), now - store.ttl), NormalizeLimit(limit), memory, persisted);
  }

  method NewPair(ttl: nat, maxEntries: nat) returns (store: RecentStore, file: RecentStore)
    ensures fresh(store) && fresh(file) && store != file && store.ttl == ttl && store.maxEntries == maxEntries
    ensures InStep(store, file, [], 0)
  {
    store := new RecentStore(ttl, maxEntries);
    file := new RecentStore(ttl, maxEntries);
  }

  method RunBoth(visits: seq<Visit>, ttl: nat, maxEntries: nat, now: nat)
      returns (store: RecentStore, file: RecentStore)
    requires ClockNeverBack(visits, now) && WithinCap(visits, ttl, maxEntries)
    ensures fresh(store) && fresh(file) && store != file && store.ttl == ttl && store.maxEntries == maxEntries
    ensures InStep(store, file, VisitsHistory(visits), now)
  {
    if visits == [] {
      store, file := NewPair(ttl, maxEntries);
    } else {
      var front, v := visits[..|visits| - 1], visits[|visits| - 1];
      store, file := RunBoth(front, ttl, maxEntries, v.now);
      VisitBoth(store, file, v, VisitsHistory(front), v.now);
    }
  }

  /**
   After any searches, with strips read in between, both stores show for any session and role the first
   stations of its complete history in the window, provided the stations there were to keep never
   passed the cap.
   */
  method RecentsAgree(visits: seq<Visit>, ttl: nat, maxEntries: nat, session: nat, role: Role, limit: int, now: nat)
      returns (memory: seq<nat>, persisted: seq<nat>)
    requires ClockNeverBack(visits, now) && WithinCap(visits, ttl, maxEntries)
    ensures memory == persisted
    ensures IsTop(Since(Lasts(VisitsHistory(visits), session, role), now - ttl), NormalizeLimit(limit), memory)
  {
    var store, file := RunBoth(visits, ttl, maxEntries, now);
    memory, persisted := ReadBoth(store, file, session, role, limit, now, VisitsHistory(visits), now);
  }
}
