/**
 The two backends of the usage store: entries in memory, each with its uses per day, and two tables
 in a database. Both forget days that fell out of the window; neither keeps single uses. Each holds
 the complete history as a ghost, and its answers are those of that history.
 */
module LocationUsage {
  import opened LocationHistory
  import opened LocationRanking
  import opened Wrappers

  type Station = (Role, nat)

  datatype Search = Search(origin: Option<nat>, destination: Option<nat>, now: nat, limit: int)

  function Locations(s: Search): seq<Station> {
    (if s.origin.Some? then [(Origin, s.origin.value)] else []) +
    (if s.destination.Some? then [(Destination, s.destination.value)] else [])
  }

  ghost function UsesAt(locations: seq<Station>, now: nat): seq<Use> {
    if locations == [] then []
    else
      var last := locations[|locations| - 1];
      UsesAt(locations[..|locations| - 1], now) + [Use(last.0, last.1, now)]
  }

  function Later(a: int, b: int): int {
    if a > b then a else b
  }

  // ---- Counts that survive pruning ----

  /** The per-day figures of a station are right from the day `floor` on. */
  ghost predicate CountsFrom(daily: map<int, nat>, h: seq<Use>, role: Role, code: nat, floor: int) {
    forall d: int :: d >= floor ==>
      (d in daily <==> CountOn(h, role, code, d) > 0) && (d in daily ==> daily[d] == CountOn(h, role, code, d))
  }

  /** The recorded days of the window hold every use in it. */
  lemma SummedDaysAreTheWindow(daily: map<int, nat>, h: seq<Use>, role: Role, code: nat, floor: int, cutoff: int,
      days: set<int>)
    requires CountsFrom(daily, h, role, code, floor) && cutoff >= floor
    requires forall d :: d in days <==> d in daily && d >= cutoff
    ensures CountIn(h, role, code, Only(days)) == CountIn(h, role, code, From(cutoff))
    ensures days == {} <==> CountIn(h, role, code, From(cutoff)) == 0
  {
    CountsAgree(h, role, code, Only(days), From(cutoff));
    if CountIn(h, role, code, From(cutoff)) > 0 {
      var d := SomeDayCounts(h, role, code, From(cutoff));
      assert d in days;
    }
    forall d | d in days ensures CountIn(h, role, code, From(cutoff)) > 0 {
      assert CountOn(h, role, code, d) > 0;
      CountGrowsWithDays(h, role, code, Only({d}), From(cutoff));
    }
  }

  lemma OneMoreDay(h: seq<Use>, role: Role, code: nat, days: set<int>, d: int)
    requires d !in days
    ensures CountIn(h, role, code, Only(days + {d})) == CountIn(h, role, code, Only(days)) + CountOn(h, role, code, d)
  {
    CountsAddUp(h, role, code, days, {d});
  }

  lemma NoDaysNoUses(h: seq<Use>, role: Role, code: nat)
    ensures CountIn(h, role, code, Only({})) == 0
  {
    if CountIn(h, role, code, Only({})) > 0 {
      var d := SomeDayCounts(h, role, code, Only({}));
    }
  }

  /** Recording a use of the station adds one to its day. */
  lemma CountsAfterUse(daily: map<int, nat>, h: seq<Use>, u: Use, floor: int)
    requires CountsFrom(daily, h, u.role, u.code, floor)
    ensures var before := if Day(u.at) in daily then daily[Day(u.at)] else 0;
      CountsFrom(daily[Day(u.at) := before + 1], h + [u], u.role, u.code, floor)
  {
    forall d: int
      ensures CountOn(h + [u], u.role, u.code, d) == CountOn(h, u.role, u.code, d) + if d == Day(u.at) then 1 else 0
    {
      OneMoreUse(h, u, u.role, u.code, Only({d}));
    }
  }

  lemma CountsOfOthers(daily: map<int, nat>, h: seq<Use>, u: Use, role: Role, code: nat, floor: int)
    requires CountsFrom(daily, h, role, code, floor) && !u.Of(role, code)
    ensures CountsFrom(daily, h + [u], role, code, floor)
  {
    forall d: int ensures CountOn(h + [u], role, code, d) == CountOn(h, role, code, d) {
      OneMoreUse(h, u, role, code, Only({d}));
    }
  }

  lemma SomeDay(days: set<int>)
    ensures days != {} ==> exists d :: d in days
  {
    if forall d: int :: d !in days {
      assert days == {};
    }
  }

  // ---- In memory ----

  datatype Entry = Entry(totalUses: nat, lastUsedAt: nat, daily: map<int, nat>)

  ghost predicate Tracks(e: Entry, h: seq<Use>, role: Role, code: nat, floor: int) {
    && e.totalUses == CountIn(h, role, code, Always)
    && e.lastUsedAt == LastUsed(h, role, code)
    && CountsFrom(e.daily, h, role, code, floor)
  }

  ghost predicate AllTracked(entries: map<Station, Entry>, h: seq<Use>, floor: int) {
    && (forall k: Station :: k in entries <==> k.1 in UsedCodes(h, k.0))
    && (forall k :: k in entries ==> Tracks(entries[k], h, k.0, k.1, floor))
  }

  lemma NothingTracked(k: Station, h: seq<Use>, floor: int)
    requires k.1 !in UsedCodes(h, k.0)
    ensures Tracks(Entry(0, 0, map[]), h, k.0, k.1, floor)
  {
    UsedMeansCounted(h, k.0, k.1);
    forall d: int ensures CountOn(h, k.0, k.1, d) == 0 {
      CountGrowsWithDays(h, k.0, k.1, Only({d}), Always);
    }
  }

  function Recorded(e: Entry, now: nat): Entry {
    var day := Day(now);
    Entry(e.totalUses + 1,
          if now > e.lastUsedAt then now else e.lastUsedAt,
          e.daily[day := (if day in e.daily then e.daily[day] else 0) + 1])
  }

  lemma TracksAfterUse(e: Entry, h: seq<Use>, u: Use, floor: int)
    requires Tracks(e, h, u.role, u.code, floor)
    ensures Tracks(Recorded(e, u.at), h + [u], u.role, u.code, floor)
  {
    OneMoreUse(h, u, u.role, u.code, Always);
    CountsAfterUse(e.daily, h, u, floor);
  }

  lemma AllTrackedAfterUse(entries: map<Station, Entry>, h: seq<Use>, u: Use, e: Entry, floor: int)
    requires AllTracked(entries, h, floor) && Tracks(e, h, u.role, u.code, floor)
    ensures AllTracked(entries[(u.role, u.code) := Recorded(e, u.at)], h + [u], floor)
  {
    TracksAfterUse(e, h, u, floor);
    forall k: Station ensures k.1 in UsedCodes(h + [u], k.0) <==> k.1 in UsedCodes(h, k.0) || k == (u.role, u.code) {
      OneMoreUse(h, u, k.0, k.1, Always);
    }
    forall k | k in entries && k != (u.role, u.code) ensures Tracks(entries[k], h + [u], k.0, k.1, floor) {
      OneMoreUse(h, u, k.0, k.1, Always);
      CountsOfOthers(entries[k].daily, h, u, k.0, k.1, floor);
    }
  }

  ghost predicate IsStat(s: Stat, h: seq<Use>, role: Role, code: nat, cutoff: int) {
    s == Stat(CountIn(h, role, code, From(cutoff)), LastUsed(h, role, code))
  }

  /** The same entry without the days before `cutoff`. */
  ghost predicate IsCut(e: Entry, was: Entry, cutoff: int) {
    && e.totalUses == was.totalUses && e.lastUsedAt == was.lastUsedAt
    && (forall d :: d in e.daily <==> d in was.daily && d >= cutoff)
    && (forall d :: d in e.daily ==> e.daily[d] == was.daily[d])
  }

  lemma CutIsTracked(e: Entry, was: Entry, cutoff: int, h: seq<Use>, role: Role, code: nat, floor: int)
    requires IsCut(e, was, cutoff) && Tracks(was, h, role, code, floor)
    ensures Tracks(e, h, role, code, Later(floor, cutoff))
  {
  }

  lemma AllCutAreTracked(entries: map<Station, Entry>, was: map<Station, Entry>, cutoff: int, h: seq<Use>, floor: int)
    requires AllTracked(was, h, floor) && entries.Keys == was.Keys
    requires forall k :: k in entries ==> IsCut(entries[k], was[k], cutoff)
    ensures AllTracked(entries, h, Later(floor, cutoff))
  {
    forall k | k in entries ensures Tracks(entries[k], h, k.0, k.1, Later(floor, cutoff)) {
      CutIsTracked(entries[k], was[k], cutoff, h, k.0, k.1, floor);
    }
  }

  class MemoryUsage {
    const windowDays: nat
    var entries: map<Station, Entry>
    /** Every use recorded, and the latest day before which days were dropped. */
    ghost var history: seq<Use>
    ghost var floor: int

    ghost predicate Valid() reads this {
      AllTracked(entries, history, floor)
    }

    constructor (windowDays: nat)
      ensures Valid() && this.windowDays == windowDays && history == [] && floor == 0 - windowDays
    {
      this.windowDays := windowDays;
      entries, history, floor := map[], [], 0 - windowDays;
    }

    method RecordLocation(role: Role, code: nat, now: nat)
      requires Valid()
      modifies this
      ensures Valid() && floor == old(floor) && history == old(history) + [Use(role, code, now)]
    {
      var key := (role, code);
      var existing := Entry(0, 0, map[]);
      if key in entries {
        existing := entries[key];
      } else {
        NothingTracked(key, history, floor);
      }
      AllTrackedAfterUse(entries, history, Use(role, code, now), existing, floor);
      entries := entries[key := Recorded(existing, now)];
      history := history + [Use(role, code, now)];
    }

    method RecordLocations(locations: seq<Station>, now: nat)
      requires Valid()
      modifies this
      ensures Valid() && floor == old(floor) && history == old(history) + UsesAt(locations, now)
    {
      var i := 0;
      while i < |locations|
        invariant i <= |locations| && Valid() && floor == old(floor)
        invariant history == old(history) + UsesAt(locations[..i], now)
      {
        RecordLocation(locations[i].0, locations[i].1, now);
        assert locations[..i + 1][..i] == locations[..i];
        i := i + 1;
      }
      assert locations[..i] == locations;
    }

    /** Drops the days before the window; no entry is ever dropped. */
    method PruneDailyUses(now: nat)
      requires Valid()
      modifies this
      ensures Valid() && history == old(history) && floor == Later(old(floor), CutoffDay(now, windowDays))
      ensures entries.Keys == old(entries.Keys)
      ensures forall k :: k in entries ==> IsCut(entries[k], old(entries)[k], CutoffDay(now, windowDays))
    {
      var cutoff := CutoffDay(now, windowDays);
      var pruned := CutAll(entries, cutoff);
      AllCutAreTracked(pruned, entries, cutoff, history, floor);
      entries, floor := pruned, Later(floor, cutoff);
    }

    static method CutAll(entries: map<Station, Entry>, cutoff: int) returns (pruned: map<Station, Entry>)
      ensures pruned.Keys == entries.Keys
      ensures forall k :: k in entries ==> IsCut(pruned[k], entries[k], cutoff)
    {
      pruned := map[];
      var left := entries.Keys;
      while left != {}
        invariant left <= entries.Keys && pruned.Keys == entries.Keys - left
        invariant forall k :: k in pruned ==> IsCut(pruned[k], entries[k], cutoff)
        decreases |left|
      {
        var k :| k in left;
        left := left - {k};
        var daily := KeepFrom(entries[k].daily, cutoff);
        pruned := pruned[k := entries[k].(daily := daily)];
      }
    }

    static method KeepFrom(daily: map<int, nat>, cutoff: int) returns (kept: map<int, nat>)
      ensures forall d :: d in kept <==> d in daily && d >= cutoff
      ensures forall d :: d in kept ==> kept[d] == daily[d]
    {
      kept := daily;
      var left: set<int> := daily.Keys;
      while left != {}
        invariant left <= daily.Keys
        invariant forall d :: d in kept <==> d in daily && (d in left || d >= cutoff)
        invariant forall d :: d in kept ==> kept[d] == daily[d]
        decreases |left|
      {
        SomeDay(left);
        var d :| d in left;
        left := left - {d};
        if d < cutoff {
          kept := kept - {d};
        }
      }
    }

    static method LiveUsesInWindow(e: Entry, cutoff: int, ghost h: seq<Use>, ghost role: Role, ghost code: nat,
        ghost floor: int) returns (live: nat)
      requires Tracks(e, h, role, code, floor) && cutoff >= floor
      ensures live == CountIn(h, role, code, From(cutoff))
    {
      live := 0;
      var left: set<int> := e.daily.Keys;
      ghost var days: set<int> := {};
      NoDaysNoUses(h, role, code);
      while left != {}
        invariant left <= e.daily.Keys
        invariant forall d :: d in days <==> d in e.daily && d >= cutoff && d !in left
        invariant live == CountIn(h, role, code, Only(days))
        decreases |left|
      {
        SomeDay(left);
        var d :| d in left;
        left := left - {d};
        if d >= cutoff {
          live := live + e.daily[d];
          OneMoreDay(h, role, code, days, d);
          days := days + {d};
        }
      }
      SummedDaysAreTheWindow(e.daily, h, role, code, floor, cutoff, days);
    }

    static method StatsIn(entries: map<Station, Entry>, role: Role, cutoff: int, ghost h: seq<Use>, ghost floor: int)
        returns (stats: map<nat, Stat>)
      requires AllTracked(entries, h, floor) && cutoff >= floor
      ensures stats == StatsOf(h, role, cutoff)
    {
      stats := map[];
      var left := entries.Keys;
      while left != {}
        invariant left <= entries.Keys
        invariant forall c: nat :: c in stats <==> (role, c) in entries && (role, c) !in left
        invariant forall c: nat :: c in stats ==> IsStat(stats[c], h, role, c, cutoff)
        decreases |left|
      {
        var k :| k in left;
        left := left - {k};
        if k.0 == role {
          var live := LiveUsesInWindow(entries[k], cutoff, h, k.0, k.1, floor);
          stats := stats[k.1 := Stat(live, entries[k].lastUsedAt)];
        }
      }
      assert forall c: nat :: (role, c) in entries <==> c in UsedCodes(h, role);
      assert stats == StatsOf(h, role, cutoff);
    }

    method RankEntries(role: Role, limit: nat, cutoff: int) returns (cards: seq<nat>)
      requires Valid() && cutoff >= floor
      ensures IsCards(StatsOf(history, role, cutoff), limit, cards)
    {
      var stats := StatsIn(entries, role, cutoff, history, floor);
      cards := Cards(stats, limit);
    }

    /** Right whenever the clock has not gone back behind a day already dropped. */
    method GetSuggestions(limit: int, now: nat) returns (s: Suggestions)
      requires Valid() && CutoffDay(now, windowDays) >= floor
      ensures IsAnswer(history, windowDays, limit, now, s)
    {
      var n, cutoff := NormalizeLimit(limit), CutoffDay(now, windowDays);
      var origin := RankEntries(Origin, n, cutoff);
      var destination := RankEntries(Destination, n, cutoff);
      s := Suggestions(origin, destination);
    }

    method RecordFromSearch(search: Search) returns (s: Suggestions)
      requires Valid() && CutoffDay(search.now, windowDays) >= floor
      modifies this
      ensures Valid() && floor == CutoffDay(search.now, windowDays)
      ensures history == old(history) + UsesAt(Locations(search), search.now)
      ensures IsAnswer(history, windowDays, search.limit, search.now, s)
    {
      RecordLocations(Locations(search), search.now);
      PruneDailyUses(search.now);
      s := GetSuggestions(search.limit, search.now);
    }
  }

  // ---- In the database ----

  datatype Lifetime = Lifetime(totalUses: nat, lastUsedAt: nat)

  /** The rows of one station in the daily table. */
  ghost function DaysOf(daily: map<(Role, nat, int), nat>, role: Role, code: nat): map<int, nat> {
    map d | d in DaysIn(daily.Keys, role, code) :: daily[(role, code, d)]
  }

  ghost function DaysIn(rows: set<(Role, nat, int)>, role: Role, code: nat): set<int> {
    set r | r in rows && r.0 == role && r.1 == code :: r.2
  }

  ghost predicate LifetimeTracked(lifetime: map<Station, Lifetime>, h: seq<Use>) {
    && (forall k: Station :: k in lifetime <==> k.1 in UsedCodes(h, k.0))
    && (forall k :: k in lifetime ==> lifetime[k] == Lifetime(CountIn(h, k.0, k.1, Always), LastUsed(h, k.0, k.1)))
  }

  ghost predicate DailyTracked(daily: map<(Role, nat, int), nat>, h: seq<Use>, floor: int) {
    forall role, code :: CountsFrom(DaysOf(daily, role, code), h, role, code, floor)
  }

  /** What the lifetime upsert leaves in its row. */
  function UpsertedLifetime(lifetime: map<Station, Lifetime>, key: Station, now: nat): Lifetime {
    if key in lifetime then
      Lifetime(lifetime[key].totalUses + 1, if now > lifetime[key].lastUsedAt then now else lifetime[key].lastUsedAt)
    else Lifetime(1, now)
  }

  function UpsertedDaily(daily: map<(Role, nat, int), nat>, cell: (Role, nat, int)): nat {
    (if cell in daily then daily[cell] else 0) + 1
  }

  lemma LifetimeAfterUse(lifetime: map<Station, Lifetime>, h: seq<Use>, u: Use, key: Station)
    requires LifetimeTracked(lifetime, h) && key == (u.role, u.code)
    ensures LifetimeTracked(lifetime[key := UpsertedLifetime(lifetime, key, u.at)], h + [u])
  {
    UsedMeansCounted(h, u.role, u.code);
    forall k: Station
      ensures k.1 in UsedCodes(h + [u], k.0) <==> k.1 in UsedCodes(h, k.0) || k == key
      ensures CountIn(h + [u], k.0, k.1, Always) == CountIn(h, k.0, k.1, Always) + if k == key then 1 else 0
      ensures LastUsed(h + [u], k.0, k.1) == if k == key && u.at > LastUsed(h, k.0, k.1) then u.at
          else LastUsed(h, k.0, k.1)
    {
      OneMoreUse(h, u, k.0, k.1, Always);
    }
  }

  /** An upsert touches one station's rows, on one day. */
  lemma RowsAfterUpsert(daily: map<(Role, nat, int), nat>, cell: (Role, nat, int), uses: nat, role: Role, code: nat)
    ensures DaysOf(daily[cell := uses], role, code) ==
            if cell.0 == role && cell.1 == code then DaysOf(daily, role, code)[cell.2 := uses]
            else DaysOf(daily, role, code)
    ensures cell.0 == role && cell.1 == code ==>
              (cell in daily <==> cell.2 in DaysOf(daily, role, code)) &&
              (cell in daily ==> daily[cell] == DaysOf(daily, role, code)[cell.2])
  {
    assert cell.0 == role && cell.1 == code ==> cell == (role, code, cell.2);
    var rows, was := daily[cell := uses].Keys, daily.Keys;
    forall d: int ensures d in DaysIn(rows, role, code) <==> (role, code, d) in rows
      ensures d in DaysIn(was, role, code) <==> (role, code, d) in was {
    }
  }

  lemma DailyAfterUse(daily: map<(Role, nat, int), nat>, h: seq<Use>, u: Use, cell: (Role, nat, int), floor: int)
    requires DailyTracked(daily, h, floor) && cell == (u.role, u.code, Day(u.at))
    ensures DailyTracked(daily[cell := UpsertedDaily(daily, cell)], h + [u], floor)
  {
    var after := daily[cell := UpsertedDaily(daily, cell)];
    forall role, code ensures CountsFrom(DaysOf(after, role, code), h + [u], role, code, floor) {
      RowsAfterUpsert(daily, cell, UpsertedDaily(daily, cell), role, code);
      if u.Of(role, code) {
        CountsAfterUse(DaysOf(daily, role, code), h, u, floor);
      } else {
        CountsOfOthers(DaysOf(daily, role, code), h, u, role, code, floor);
      }
    }
  }

  /** The group of a station holds the uses of its rows read so far. */
  ghost predicate Summed(sums: map<nat, nat>, h: seq<Use>, role: Role, done: set<(Role, nat, int)>, code: nat) {
    && (code in sums <==> DaysIn(done, role, code) != {})
    && (if code in sums then sums[code] else 0) == CountIn(h, role, code, Only(DaysIn(done, role, code)))
  }

  lemma NoRows(h: seq<Use>, role: Role, cutoff: int)
    ensures forall c: nat :: Summed(map[], h, role, {}, c)
  {
    forall c: nat ensures Summed(map[], h, role, {}, c) {
      NoDaysNoUses(h, role, c);
      assert DaysIn({}, role, c) == {};
    }
  }

  lemma AddRow(daily: map<(Role, nat, int), nat>, h: seq<Use>, floor: int, role: Role, done: set<(Role, nat, int)>,
      r: (Role, nat, int), c: nat)
    requires DailyTracked(daily, h, floor) && r in daily && r.2 >= floor && r !in done
    ensures DaysIn(done + {r}, role, c) == DaysIn(done, role, c) + if r.0 == role && r.1 == c then {r.2} else {}
    ensures CountIn(h, role, c, Only(DaysIn(done + {r}, role, c))) ==
            CountIn(h, role, c, Only(DaysIn(done, role, c))) + if r.0 == role && r.1 == c then daily[r] else 0
  {
    var mine := r.0 == role && r.1 == c;
    assert DaysIn(done + {r}, role, c) == DaysIn(done, role, c) + if mine then {r.2} else {} by {
      assert mine ==> r == (role, c, r.2);
    }
    if mine {
      assert CountsFrom(DaysOf(daily, role, c), h, role, c, floor);
      assert r.2 in DaysOf(daily, role, c) && r == (role, c, r.2);
      OneMoreDay(h, role, c, DaysIn(done, role, c), r.2);
    } else {
      assert DaysIn(done + {r}, role, c) == DaysIn(done, role, c);
    }
  }

  lemma RowIsAdded(daily: map<(Role, nat, int), nat>, h: seq<Use>, floor: int, role: Role, done: set<(Role, nat, int)>,
      r: (Role, nat, int),
                   was: map<nat, nat>, sums: map<nat, nat>)
    requires DailyTracked(daily, h, floor) && r in daily && r.2 >= floor && r !in done
    requires forall c: nat :: Summed(was, h, role, done, c)
    requires sums == if r.0 == role then was[r.1 := (if r.1 in was then was[r.1] else 0) + daily[r]] else was
    ensures forall c: nat :: Summed(sums, h, role, done + {r}, c)
  {
    forall c: nat ensures Summed(sums, h, role, done + {r}, c) {
      assert Summed(was, h, role, done, c);
      AddRow(daily, h, floor, role, done, r, c);
    }
  }

  lemma AllRows(daily: map<(Role, nat, int), nat>, h: seq<Use>, floor: int, role: Role, cutoff: int,
      done: set<(Role, nat, int)>, c: nat)
    requires DailyTracked(daily, h, floor) && cutoff >= floor
    requires forall r :: r in done <==> r in daily && r.2 >= cutoff
    ensures CountIn(h, role, c, Only(DaysIn(done, role, c))) == CountIn(h, role, c, From(cutoff))
    ensures DaysIn(done, role, c) == {} <==> CountIn(h, role, c, From(cutoff)) == 0
  {
    var days := DaysOf(daily, role, c);
    assert CountsFrom(days, h, role, c, floor);
    forall d: int ensures d in DaysIn(done, role, c) <==> d in days && d >= cutoff {
      assert d in DaysIn(done, role, c) ==> (role, c, d) in done;
    }
    SummedDaysAreTheWindow(days, h, role, c, floor, cutoff, DaysIn(done, role, c));
  }

  lemma LifetimeIsRecency(lifetime: map<Station, Lifetime>, h: seq<Use>, role: Role, cutoff: int, stats: map<nat, Stat>)
    requires LifetimeTracked(lifetime, h)
    requires forall c: nat :: c in stats <==> (role, c) in lifetime
    requires forall c: nat :: c in stats ==> stats[c] == Stat(0, lifetime[(role, c)].lastUsedAt)
    ensures ByRecency(StatsOf(h, role, cutoff)) == stats
  {
    assert forall c: nat :: (role, c) in lifetime <==> c in UsedCodes(h, role);
  }

  class PersistedUsage {
    const windowDays: nat
    var lifetime: map<Station, Lifetime>
    var daily: map<(Role, nat, int), nat>
    ghost var history: seq<Use>
    ghost var floor: int

    ghost predicate Valid() reads this {
      LifetimeTracked(lifetime, history) && DailyTracked(daily, history, floor)
    }

    constructor (windowDays: nat)
      ensures Valid() && this.windowDays == windowDays && history == [] && floor == 0 - windowDays
    {
      this.windowDays := windowDays;
      lifetime, daily, history, floor := map[], map[], [], 0 - windowDays;
    }

    /** The two upserts. */
    method Upsert(role: Role, code: nat, now: nat)
      requires Valid()
      modifies this
      ensures Valid() && floor == old(floor) && history == old(history) + [Use(role, code, now)]
    {
      var key, cell := (role, code), (role, code, Day(now));
      LifetimeAfterUse(lifetime, history, Use(role, code, now), key);
      DailyAfterUse(daily, history, Use(role, code, now), cell, floor);
      lifetime := lifetime[key := UpsertedLifetime(lifetime, key, now)];
      daily := daily[cell := UpsertedDaily(daily, cell)];
      history := history + [Use(role, code, now)];
    }

    method UpsertAll(locations: seq<Station>, now: nat)
      requires Valid()
      modifies this
      ensures Valid() && floor == old(floor) && history == old(history) + UsesAt(locations, now)
    {
      var i := 0;
      while i < |locations|
        invariant i <= |locations| && Valid() && floor == old(floor)
        invariant history == old(history) + UsesAt(locations[..i], now)
      {
        Upsert(locations[i].0, locations[i].1, now);
        assert locations[..i + 1][..i] == locations[..i];
        i := i + 1;
      }
      assert locations[..i] == locations;
    }

    /** `DELETE ... WHERE day < cutoff`. */
    method DeleteExpired(now: nat)
      requires Valid()
      modifies this
      ensures Valid() && history == old(history) && lifetime == old(lifetime)
      ensures floor == Later(old(floor), CutoffDay(now, windowDays))
      ensures forall r :: r in daily <==> r in old(daily) && r.2 >= CutoffDay(now, windowDays)
    {
      var cutoff := CutoffDay(now, windowDays);
      var kept := map r | r in daily && r.2 >= cutoff :: daily[r];
      forall role, code ensures CountsFrom(DaysOf(kept, role, code), history, role, code, Later(floor, cutoff)) {
        assert CountsFrom(DaysOf(daily, role, code), history, role, code, floor);
      }
      daily, floor := kept, Later(floor, cutoff);
    }

    /** `GROUP BY code` over the window, with the lifetime row joined for the tie-break; a missing
        row sorts last. */
    method GroupWindow(role: Role, cutoff: int) returns (groups: map<nat, Stat>)
      requires Valid() && cutoff >= floor
      ensures groups == LiveOnly(StatsOf(history, role, cutoff))
    {
      var sums := SumRows(daily, role, cutoff, history, floor);
      groups := map c | c in sums ::
          Stat(sums[c], if (role, c) in lifetime then lifetime[(role, c)].lastUsedAt else -1);
      forall c: nat
        ensures c in sums <==> c in LiveOnly(StatsOf(history, role, cutoff))
        ensures c in sums ==> groups[c] == StatsOf(history, role, cutoff)[c]
      {
        UsedMeansCounted(history, role, c);
        CountGrowsWithDays(history, role, c, From(cutoff), Always);
        assert (role, c) in lifetime <==> c in UsedCodes(history, role);
      }
    }

    static method SumRows(daily: map<(Role, nat, int), nat>, role: Role, cutoff: int, ghost h: seq<Use>,
        ghost floor: int)
        returns (sums: map<nat, nat>)
      requires DailyTracked(daily, h, floor) && cutoff >= floor
      ensures forall c: nat :: c in sums <==> CountIn(h, role, c, From(cutoff)) > 0
      ensures forall c: nat :: c in sums ==> sums[c] == CountIn(h, role, c, From(cutoff))
    {
      sums := map[];
      var left := daily.Keys;
      ghost var done: set<(Role, nat, int)> := {};
      NoRows(h, role, cutoff);
      while left != {}
        invariant left <= daily.Keys
        invariant forall r :: r in done <==> r in daily && r.2 >= cutoff && r !in left
        invariant forall c: nat :: Summed(sums, h, role, done, c)
        decreases |left|
      {
        var r :| r in left;
        left := left - {r};
        if r.2 >= cutoff {
          ghost var was := sums;
          if r.0 == role {
            sums := sums[r.1 := (if r.1 in sums then sums[r.1] else 0) + daily[r]];
          }
          RowIsAdded(daily, h, floor, role, done, r, was, sums);
          done := done + {r};
        }
      }
      forall c: nat
        ensures c in sums <==> CountIn(h, role, c, From(cutoff)) > 0
        ensures c in sums ==> sums[c] == CountIn(h, role, c, From(cutoff))
      {
        assert Summed(sums, h, role, done, c);
        AllRows(daily, h, floor, role, cutoff, done, c);
      }
    }

    method Newest(role: Role) returns (newest: seq<nat>)
      requires Valid()
      ensures forall cutoff: int :: IsTop(ByRecency(StatsOf(history, role, cutoff)), 1, newest)
    {
      var rows := set k | k in lifetime && k.0 == role :: k.1;
      var stats := map c | c in rows :: Stat(0, lifetime[(role, c)].lastUsedAt);
      newest := TopOf(stats, 1);
      forall cutoff: int ensures ByRecency(StatsOf(history, role, cutoff)) == stats {
        LifetimeIsRecency(lifetime, history, role, cutoff, stats);
      }
    }

    method ReadRoleCards(role: Role, limit: nat, cutoff: int) returns (cards: seq<nat>)
      requires Valid() && cutoff >= floor
      ensures IsCards(StatsOf(history, role, cutoff), limit, cards)
    {
      var groups := GroupWindow(role, cutoff);
      var leaders := TopOf(groups, limit);
      var newest := Newest(role);
      cards := WithNewestCard(leaders, if limit < 2 then [] else newest, limit);
      assert cards == WithNewestCard(leaders, newest, limit);
    }

    method GetSuggestions(limit: int, now: nat) returns (s: Suggestions)
      requires Valid() && CutoffDay(now, windowDays) >= floor
      ensures IsAnswer(history, windowDays, limit, now, s)
    {
      var n, cutoff := NormalizeLimit(limit), CutoffDay(now, windowDays);
      var origin := ReadRoleCards(Origin, n, cutoff);
      var destination := ReadRoleCards(Destination, n, cutoff);
      s := Suggestions(origin, destination);
    }

    /** A search without a station writes nothing, so it drops nothing either. */
    method RecordFromSearch(search: Search) returns (s: Suggestions)
      requires Valid() && CutoffDay(search.now, windowDays) >= floor
      modifies this
      ensures Valid() && floor <= CutoffDay(search.now, windowDays)
      ensures history == old(history) + UsesAt(Locations(search), search.now)
      ensures IsAnswer(history, windowDays, search.limit, search.now, s)
    {
      var locations := Locations(search);
      if locations != [] {
        UpsertAll(locations, search.now);
        DeleteExpired(search.now);
      }
      s := GetSuggestions(search.limit, search.now);
    }
  }

  // ---- Both, over any run ----

  ghost predicate ClockNeverBack(searches: seq<Search>) {
    forall i, j :: 0 <= i < j < |searches| ==> searches[i].now <= searches[j].now
  }

  ghost function HistoryOf(searches: seq<Search>): seq<Use> {
    if searches == [] then []
    else
      var last := searches[|searches| - 1];
      HistoryOf(searches[..|searches| - 1]) + UsesAt(Locations(last), last.now)
  }

  lemma DayGrows(a: nat, b: nat)
    requires a <= b
    ensures Day(a) <= Day(b)
  {
  }

  /** The first `n` searches were answered from the complete history as it then was. */
  ghost predicate Answered(searches: seq<Search>, windowDays: nat, answers: seq<Suggestions>, n: nat) {
    n <= |searches| && |answers| == n && forall i :: 0 <= i < n ==> AnsweredAt(searches, windowDays, i, answers[i])
  }

  /** The right answer to the i-th search. */
  ghost predicate AnsweredAt(searches: seq<Search>, windowDays: nat, i: nat, s: Suggestions)
    requires i < |searches|
  {
    IsAnswer(HistoryOf(searches[..i + 1]), windowDays, searches[i].limit, searches[i].now, s)
  }

  lemma HistoryGrows(searches: seq<Search>, n: nat)
    requires n < |searches|
    ensures HistoryOf(searches[..n + 1]) == HistoryOf(searches[..n]) + UsesAt(Locations(searches[n]), searches[n].now)
  {
    assert searches[..n + 1][..n] == searches[..n];
  }

  lemma AnsweredGrows(searches: seq<Search>, windowDays: nat, answers: seq<Suggestions>, n: nat, s: Suggestions)
    requires Answered(searches, windowDays, answers, n) && n < |searches|
    requires AnsweredAt(searches, windowDays, n, s)
    ensures Answered(searches, windowDays, answers + [s], n + 1)
  {
  }

  method RecordInBoth(store: MemoryUsage, file: PersistedUsage, search: Search, windowDays: nat, ghost h: seq<Use>)
      returns (m: Suggestions, p: Suggestions)
    requires store.Valid() && file.Valid() && store.windowDays == windowDays && file.windowDays == windowDays
    requires store.history == h && file.history == h
    requires store.floor <= CutoffDay(search.now, windowDays) && file.floor <= CutoffDay(search.now, windowDays)
    modifies store, file
    ensures store.Valid() && file.Valid()
    ensures store.history == h + UsesAt(Locations(search), search.now)
        && file.history == h + UsesAt(Locations(search), search.now)
    ensures store.floor <= CutoffDay(search.now, windowDays) && file.floor <= CutoffDay(search.now, windowDays)
    ensures m == p && IsAnswer(h + UsesAt(Locations(search), search.now), windowDays, search.limit, search.now, m)
  {
    m := store.RecordFromSearch(search);
    p := file.RecordFromSearch(search);
    AnswersAreUnique(h + UsesAt(Locations(search), search.now), windowDays, search.limit, search.now, m, p);
  }

  /**
   After any sequence of searches both backends have shown, search by search, the same cards, and they
   are the cards of the complete history.
   */
  method BackendsAgree(searches: seq<Search>, windowDays: nat)
      returns (memory: seq<Suggestions>, persisted: seq<Suggestions>)
    requires ClockNeverBack(searches)
    ensures memory == persisted
    ensures Answered(searches, windowDays, memory, |searches|)
  {
    var store := new MemoryUsage(windowDays);
    var file := new PersistedUsage(windowDays);
    memory, persisted := [], [];
    var i := 0;
    ghost var h: seq<Use> := [];
    ghost var day: int := 0;
    while i < |searches|
      invariant i <= |searches| && memory == persisted && Answered(searches, windowDays, memory, i)
          && h == HistoryOf(searches[..i])
      invariant store.Valid() && file.Valid() && fresh(store) && fresh(file)
      invariant store.windowDays == windowDays && file.windowDays == windowDays && store.history == h
          && file.history == h
      invariant store.floor <= day - windowDays && file.floor <= day - windowDays
      invariant i < |searches| ==> day <= Day(searches[i].now)
    {
      var search := searches[i];
      var m, p := RecordInBoth(store, file, search, windowDays, h);
      h := h + UsesAt(Locations(search), search.now);
      HistoryGrows(searches, i);
      AnsweredGrows(searches, windowDays, memory, i, m);
      memory, persisted := memory + [m], persisted + [p];
      day := Day(search.now);
      if i + 1 < |searches| {
        DayGrows(search.now, searches[i + 1].now);
      }
      i := i + 1;
    }
  }
}
