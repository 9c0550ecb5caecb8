/**
 What the cards and the recent strip show, said of the searches themselves: how many of them used a
 station in which role, on which days, and when last.
 */
module LocationFigures {
  import opened LocationHistory
  import opened LocationRanking
  import opened LocationRecents
  import opened Wrappers
  import Recent = LocationRecentStore
  import Usage = LocationUsage

  // ---- The cards ----

  predicate Used(s: Usage.Search, role: Role, c: nat) {
    match role
    case Origin => s.origin == Some(c)
    case Destination => s.destination == Some(c)
  }

  /** The searches that used the station from the first day of the window on, a day being one of UTC. */
  ghost function UsesInWindow(searches: seq<Usage.Search>, role: Role, c: nat, now: nat, windowDays: nat): set<nat> {
    set i: nat | i < |searches| && InWindow(searches[i], role, c, now, windowDays)
  }

  ghost predicate EverUsed(searches: seq<Usage.Search>, role: Role, c: nat) {
    exists i :: 0 <= i < |searches| && Used(searches[i], role, c)
  }

  ghost predicate IsLatestUse(searches: seq<Usage.Search>, role: Role, c: nat, at: int) {
    && (exists i :: 0 <= i < |searches| && Used(searches[i], role, c) && searches[i].now == at)
    && forall i :: 0 <= i < |searches| && Used(searches[i], role, c) ==> searches[i].now <= at
  }

  ghost function UseOf(role: Role, station: Option<nat>, now: nat): seq<Use> {
    if station.Some? then [Use(role, station.value, now)] else []
  }

  lemma OneMoreStation(h: seq<Use>, played: Role, station: Option<nat>, now: nat, role: Role, c: nat, days: Days)
    ensures var after, used := h + UseOf(played, station, now), played == role && station == Some(c);
      && CountIn(after, role, c, days) ==
         CountIn(h, role, c, days) + (if used && days.Has(Day(now)) then 1 else 0)
      && LastUsed(after, role, c) ==
         (if used && now > LastUsed(h, role, c) then now else LastUsed(h, role, c))
      && (c in UsedCodes(after, role) <==> c in UsedCodes(h, role) || used)
  {
    if station.Some? {
      OneMoreUse(h, Use(played, station.value, now), role, c, days);
    } else {
      assert h + UseOf(played, station, now) == h;
    }
  }

  lemma OneMoreSearch(h: seq<Use>, s: Usage.Search, role: Role, c: nat, days: Days)
    ensures var after := h + Usage.UsesAt(Usage.Locations(s), s.now);
      && CountIn(after, role, c, days) ==
         CountIn(h, role, c, days) + (if Used(s, role, c) && days.Has(Day(s.now)) then 1 else 0)
      && LastUsed(after, role, c) ==
         (if Used(s, role, c) && s.now > LastUsed(h, role, c) then s.now else LastUsed(h, role, c))
      && (c in UsedCodes(after, role) <==> c in UsedCodes(h, role) || Used(s, role, c))
  {
    var from, to := UseOf(Origin, s.origin, s.now), UseOf(Destination, s.destination, s.now);
    UsesOfSearch(s);
    assert h + (from + to) == (h + from) + to;
    OneMoreStation(h, Origin, s.origin, s.now, role, c, days);
    OneMoreStation(h + from, Destination, s.destination, s.now, role, c, days);
  }

  lemma OneUse(station: Usage.Station, now: nat)
    ensures Usage.UsesAt([station], now) == [Use(station.0, station.1, now)]
  {
    var one: seq<Usage.Station> := [station];
    assert one[..0] == [];
  }

  lemma TwoUses(from: Usage.Station, to: Usage.Station, now: nat)
    ensures Usage.UsesAt([from] + [to], now) == [Use(from.0, from.1, now)] + [Use(to.0, to.1, now)]
  {
    var two: seq<Usage.Station> := [from] + [to];
    assert two[..1] == [from];
    OneUse(from, now);
  }

  lemma UsesOfSearch(s: Usage.Search)
    ensures Usage.UsesAt(Usage.Locations(s), s.now) ==
            UseOf(Origin, s.origin, s.now) + UseOf(Destination, s.destination, s.now)
  {
    if s.origin.Some? && s.destination.Some? {
      TwoUses((Origin, s.origin.value), (Destination, s.destination.value), s.now);
    } else if s.origin.Some? {
      OneUse((Origin, s.origin.value), s.now);
      assert Usage.Locations(s) == [(Origin, s.origin.value)];
    } else if s.destination.Some? {
      OneUse((Destination, s.destination.value), s.now);
      assert Usage.Locations(s) == [(Destination, s.destination.value)];
    }
  }

  ghost predicate InWindow(s: Usage.Search, role: Role, c: nat, now: nat, windowDays: nat) {
    Used(s, role, c) && s.now / 86_400_000 >= now / 86_400_000 - windowDays
  }

  lemma WindowGrows(front: seq<Usage.Search>, s: Usage.Search, role: Role, c: nat, now: nat, windowDays: nat)
    ensures |UsesInWindow(front + [s], role, c, now, windowDays)| ==
            |UsesInWindow(front, role, c, now, windowDays)| + if InWindow(s, role, c, now, windowDays) then 1 else 0
  {
    var before, after := UsesInWindow(front, role, c, now, windowDays),
        UsesInWindow(front + [s], role, c, now, windowDays);
    if InWindow(s, role, c, now, windowDays) {
      assert after == before + {|front|};
    } else {
      assert after == before;
    }
  }

  lemma DayOfUse(s: Usage.Search, role: Role, c: nat, now: nat, windowDays: nat)
    ensures InWindow(s, role, c, now, windowDays) <==>
            Used(s, role, c) && From(CutoffDay(now, windowDays)).Has(Day(s.now))
  {
  }

  lemma {:induction false} UsesAreCounted(searches: seq<Usage.Search>, role: Role, c: nat, now: nat, windowDays: nat)
    ensures CountIn(Usage.HistoryOf(searches), role, c, From(CutoffDay(now, windowDays))) ==
            |UsesInWindow(searches, role, c, now, windowDays)|
  {
    if searches != [] {
      var front, last := searches[..|searches| - 1], searches[|searches| - 1];
      UsesAreCounted(front, role, c, now, windowDays);
      OneMoreSearch(Usage.HistoryOf(front), last, role, c, From(CutoffDay(now, windowDays)));
      WindowGrows(front, last, role, c, now, windowDays);
      DayOfUse(last, role, c, now, windowDays);
      assert front + [last] == searches;
    }
  }

  lemma EverUsedGrows(front: seq<Usage.Search>, s: Usage.Search, role: Role, c: nat)
    ensures EverUsed(front + [s], role, c) <==> EverUsed(front, role, c) || Used(s, role, c)
  {
    var searches := front + [s];
    assert forall i :: 0 <= i < |front| ==> searches[i] == front[i];
    assert searches[|front|] == s;
  }

  lemma LatestUseGrows(front: seq<Usage.Search>, s: Usage.Search, role: Role, c: nat, at: int)
    requires if EverUsed(front, role, c) then IsLatestUse(front, role, c, at) else at == 0 && Used(s, role, c)
    ensures IsLatestUse(front + [s], role, c, if Used(s, role, c) && s.now > at then s.now else at)
  {
    var searches := front + [s];
    assert searches[|front|] == s;
    if EverUsed(front, role, c) {
      var i :| 0 <= i < |front| && Used(front[i], role, c) && front[i].now == at;
      assert searches[i] == front[i];
    }
    assert forall i :: 0 <= i < |front| ==> searches[i] == front[i];
  }

  lemma {:induction false} LatestUseIsLatest(searches: seq<Usage.Search>, role: Role, c: nat)
    ensures c in UsedCodes(Usage.HistoryOf(searches), role) <==> EverUsed(searches, role, c)
    ensures if EverUsed(searches, role, c)
      then IsLatestUse(searches, role, c, LastUsed(Usage.HistoryOf(searches), role, c))
      else LastUsed(Usage.HistoryOf(searches), role, c) == 0
  {
    if searches != [] {
      var front, last := searches[..|searches| - 1], searches[|searches| - 1];
      LatestUseIsLatest(front, role, c);
      OneMoreSearch(Usage.HistoryOf(front), last, role, c, Always);
      EverUsedGrows(front, last, role, c);
      assert front + [last] == searches;
      if EverUsed(searches, role, c) {
        LatestUseGrows(front, last, role, c, LastUsed(Usage.HistoryOf(front), role, c));
      }
    }
  }

  /** A station's figures: how often it was used in the window and when last. */
  ghost predicate AreFigures(stats: map<nat, Stat>, searches: seq<Usage.Search>, role: Role, now: nat,
      windowDays: nat)
  {
    && (forall c: nat :: c in stats <==> EverUsed(searches, role, c))
    && forall c :: c in stats ==>
         && stats[c].live == |UsesInWindow(searches, role, c, now, windowDays)|
         && IsLatestUse(searches, role, c, stats[c].last)
  }

  /** The leaders by those figures in their places, and the newest station in the last one. */
  ghost predicate AreCards(stats: map<nat, Stat>, limit: nat, cards: seq<nat>, leaders: seq<nat>, newest: nat)
    requires limit >= 1
  {
    && AreLeaders(stats, limit, leaders) && (|stats| > 0 ==> IsNewest(stats, newest))
    && if limit == 1 || |stats| == 0 then cards == leaders else NewestHasTheLastSlot(leaders, newest, limit, cards)
  }

  ghost predicate ShowsLeadersAndNewest(searches: seq<Usage.Search>, role: Role, windowDays: nat, limit: nat,
      now: nat, cards: seq<nat>)
    requires limit >= 1
  {
    exists stats, leaders, newest ::
      AreFigures(stats, searches, role, now, windowDays) && AreCards(stats, limit, cards, leaders, newest)
  }

  /** The cards of a role, given the searches: counted, compared and placed by numbers alone. */
  lemma CardsInFigures(searches: seq<Usage.Search>, role: Role, windowDays: nat, limit: nat, now: nat,
      cards: seq<nat>)
    requires limit >= 1
    requires IsCards(StatsOf(Usage.HistoryOf(searches), role, CutoffDay(now, windowDays)), limit, cards)
    ensures ShowsLeadersAndNewest(searches, role, windowDays, limit, now, cards)
  {
    var stats := StatsOf(Usage.HistoryOf(searches), role, CutoffDay(now, windowDays));
    forall c: nat
      ensures c in stats <==> EverUsed(searches, role, c)
      ensures c in stats ==> stats[c].live == |UsesInWindow(searches, role, c, now, windowDays)|
      ensures c in stats ==> IsLatestUse(searches, role, c, stats[c].last)
    {
      UsesAreCounted(searches, role, c, now, windowDays);
      LatestUseIsLatest(searches, role, c);
    }
    var leaders, newest := CardsKeepNewestAndLeaders(stats, limit, cards);
    assert AreFigures(stats, searches, role, now, windowDays) && AreCards(stats, limit, cards, leaders, newest);
  }

  /** What is shown after some searches, for both roles and any limit asked for. */
  lemma AnswerInFigures(searches: seq<Usage.Search>, windowDays: nat, limit: int, now: nat, s: Suggestions)
    requires IsAnswer(Usage.HistoryOf(searches), windowDays, limit, now, s)
    ensures var n := if limit == 0 || limit > 3 then 3 else if limit < 0 then 1 else limit;
      && ShowsLeadersAndNewest(searches, Origin, windowDays, n, now, s.origin)
      && ShowsLeadersAndNewest(searches, Destination, windowDays, n, now, s.destination)
  {
    CardsInFigures(searches, Origin, windowDays, NormalizeLimit(limit), now, s.origin);
    CardsInFigures(searches, Destination, windowDays, NormalizeLimit(limit), now, s.destination);
  }

  // ---- The recent strip ----

  predicate Visited(v: Recent.Visit, session: nat, role: Role, c: nat) {
    v.Visit? && v.session == Some(session) && (role, c) in v.locations
  }

  ghost predicate EverVisited(visits: seq<Recent.Visit>, session: nat, role: Role, c: nat) {
    exists i :: 0 <= i < |visits| && Visited(visits[i], session, role, c)
  }

  /** The last visit of the session that used the station in the role was then. */
  ghost predicate IsLastVisit(visits: seq<Recent.Visit>, session: nat, role: Role, c: nat, at: int) {
    exists i :: 0 <= i < |visits| && Visited(visits[i], session, role, c) && visits[i].now == at
        && forall j :: i < j < |visits| ==> !Visited(visits[j], session, role, c)
  }

  lemma {:induction false} OneMoreStrip(h: seq<RecentUse>, who: nat, locations: seq<(Role, nat)>, now: nat,
      session: nat, role: Role, c: nat)
    ensures var before := Lasts(h, session, role);
      var after := Lasts(h + Recent.RecentUses(who, locations, now), session, role);
      if who == session && (role, c) in locations then c in after && after[c] == now
      else (c in after <==> c in before) && (c in after ==> after[c] == before[c])
  {
    if locations == [] {
      assert h + Recent.RecentUses(who, locations, now) == h;
    } else {
      var front, last := locations[..|locations| - 1], locations[|locations| - 1];
      OneMoreStrip(h, who, front, now, session, role, c);
      OneMoreEntry(h + Recent.RecentUses(who, front, now), RecentKey(who, last.0, last.1), now, session, role, c);
      assert h + Recent.RecentUses(who, locations, now) ==
          (h + Recent.RecentUses(who, front, now)) + [RecentUse(RecentKey(who, last.0, last.1), now)];
      InLonger(front, last, (role, c));
      assert front + [last] == locations;
    }
  }

  lemma OneMoreEntry(h: seq<RecentUse>, key: RecentKey, now: nat, session: nat, role: Role, c: nat)
    ensures var before, after := Lasts(h, session, role), Lasts(h + [RecentUse(key, now)], session, role);
      if key == RecentKey(session, role, c) then c in after && after[c] == now
      else (c in after <==> c in before) && (c in after ==> after[c] == before[c])
  {
    Recent.LastsAfterUse(h, key, now, session, role);
  }

  lemma InLonger<T>(front: seq<T>, last: T, x: T)
    ensures x in front + [last] <==> x in front || x == last
  {
  }

  lemma OneMoreVisit(h: seq<RecentUse>, v: Recent.Visit, session: nat, role: Role, c: nat)
    ensures var before, after := Lasts(h, session, role), Lasts(h + Recent.VisitUses(v), session, role);
      if Visited(v, session, role, c) then c in after && after[c] == v.now
      else (c in after <==> c in before) && (c in after ==> after[c] == before[c])
  {
    if v.Visit? && v.session.Some? {
      OneMoreStrip(h, v.session.value, v.locations, v.now, session, role, c);
    } else {
      assert h + Recent.VisitUses(v) == h;
    }
  }

  lemma VisitIsTheLast(front: seq<Recent.Visit>, v: Recent.Visit, session: nat, role: Role, c: nat, at: int)
    requires if Visited(v, session, role, c) then at == v.now else IsLastVisit(front, session, role, c, at)
    ensures IsLastVisit(front + [v], session, role, c, at)
  {
    var visits := front + [v];
    if Visited(v, session, role, c) {
      assert visits[|front|] == v;
    } else {
      var i :| 0 <= i < |front| && Visited(front[i], session, role, c) && front[i].now == at
          && forall j :: i < j < |front| ==> !Visited(front[j], session, role, c);
      assert visits[i] == front[i];
    }
  }

  lemma EverVisitedGrows(front: seq<Recent.Visit>, v: Recent.Visit, session: nat, role: Role, c: nat)
    ensures EverVisited(front + [v], session, role, c) <==>
            EverVisited(front, session, role, c) || Visited(v, session, role, c)
  {
    var visits := front + [v];
    assert forall i :: 0 <= i < |front| ==> visits[i] == front[i];
    assert visits[|front|] == v;
  }

  lemma {:induction false} LastsAreLastVisits(visits: seq<Recent.Visit>, session: nat, role: Role, c: nat)
    ensures var lasts := Lasts(Recent.VisitsHistory(visits), session, role);
      && (c in lasts <==> EverVisited(visits, session, role, c))
      && (c in lasts ==> IsLastVisit(visits, session, role, c, lasts[c]))
  {
    if visits != [] {
      var front, v := visits[..|visits| - 1], visits[|visits| - 1];
      LastsAreLastVisits(front, session, role, c);
      OneMoreVisit(Recent.VisitsHistory(front), v, session, role, c);
      EverVisitedGrows(front, v, session, role, c);
      assert front + [v] == visits;
      if EverVisited(visits, session, role, c) {
        VisitIsTheLast(front, v, session, role, c, Lasts(Recent.VisitsHistory(visits), session, role)[c]);
      }
    }
  }

  /** The strip: stations the session used in the role since then, the latest first and of those as late
      the lower code first; when a station is left out the strip is full and everybody in it is ahead. */
  ghost predicate IsStrip(lasts: map<nat, nat>, since: int, limit: nat, r: seq<nat>) {
    && |r| <= limit && (forall i :: 0 <= i < |r| ==> r[i] in lasts && lasts[r[i]] >= since)
    && (forall i, j :: 0 <= i < j < |r| ==> LaterIn(lasts, r[i], r[j]))
    && forall c :: c in lasts && lasts[c] >= since && c !in r ==>
         |r| == limit && forall i :: 0 <= i < |r| ==> LaterIn(lasts, r[i], c)
  }

  predicate LaterIn(lasts: map<nat, nat>, a: nat, b: nat) {
    a in lasts && b in lasts && (lasts[a] > lasts[b] || (lasts[a] == lasts[b] && a < b))
  }

  ghost predicate AreLastVisits(lasts: map<nat, nat>, visits: seq<Recent.Visit>, session: nat, role: Role) {
    && (forall c: nat :: c in lasts <==> EverVisited(visits, session, role, c))
    && forall c :: c in lasts ==> IsLastVisit(visits, session, role, c, lasts[c])
  }

  lemma TopIsStrip(lasts: map<nat, nat>, since: int, limit: nat, r: seq<nat>)
    requires IsTop(Since(lasts, since), limit, r)
    ensures IsStrip(lasts, since, limit, r)
  {
    var young := Since(lasts, since);
    RankedIsDistinct(young, r);
    assert Members(r) <= young.Keys && |young.Keys| == |young|;
    forall i, j | 0 <= i < j < |r| ensures LaterIn(lasts, r[i], r[j]) {
      assert Better(young, r[i], r[j]);
    }
    forall c | c in lasts && lasts[c] >= since && c !in r
      ensures |r| == limit && forall i :: 0 <= i < |r| ==> LaterIn(lasts, r[i], c)
    {
      assert c in young && c !in Members(r);
      if |r| < limit { SameSize(Members(r), young.Keys); }
    }
  }

  /** The strip of a session and a role, given the visits. */
  lemma StripInFigures(visits: seq<Recent.Visit>, session: nat, role: Role, since: int, limit: nat, r: seq<nat>)
      returns (lasts: map<nat, nat>)
    requires IsTop(Since(Lasts(Recent.VisitsHistory(visits), session, role), since), limit, r)
    ensures AreLastVisits(lasts, visits, session, role) && IsStrip(lasts, since, limit, r)
  {
    lasts := Lasts(Recent.VisitsHistory(visits), session, role);
    forall c: nat
      ensures c in lasts <==> EverVisited(visits, session, role, c)
      ensures c in lasts ==> IsLastVisit(visits, session, role, c, lasts[c])
    {
      LastsAreLastVisits(visits, session, role, c);
    }
    TopIsStrip(lasts, since, limit, r);
  }
}
