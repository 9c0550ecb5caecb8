/**
 What a ranking of stations is, whoever computes it: the list of the best few by uses, then by the
 latest use, then by code. The specification names no algorithm and has exactly one answer.
 A code stands for its place in the collation order.
 */
module LocationRanking {

  datatype Stat = Stat(live: nat, last: int)

  /** `a` ranks strictly before `b`. */
  predicate Better(stats: map<nat, Stat>, a: nat, b: nat)
    requires a in stats && b in stats
  {
    var x, y := stats[a], stats[b];
    if x.live != y.live then x.live > y.live
    else if x.last != y.last then x.last > y.last
    else a < b
  }

  ghost predicate Ranked(stats: map<nat, Stat>, r: seq<nat>) {
    && (forall i :: 0 <= i < |r| ==> r[i] in stats)
    && (forall i, j :: 0 <= i < j < |r| ==> Better(stats, r[i], r[j]))
  }

  /** The first `limit` of all stations, in order. */
  ghost predicate IsTop(stats: map<nat, Stat>, limit: nat, r: seq<nat>) {
    && Ranked(stats, r)
    && |r| == (if |stats| < limit then |stats| else limit)
    && forall c, i :: c in stats && c !in r && 0 <= i < |r| ==> Better(stats, r[i], c)
  }

  ghost function Members(r: seq<nat>): set<nat> {
    set c | c in r
  }

  lemma RankedIsDistinct(stats: map<nat, Stat>, r: seq<nat>)
    requires Ranked(stats, r)
    ensures forall i, j :: 0 <= i < j < |r| ==> r[i] != r[j]
    ensures |Members(r)| == |r|
  {
    MembersOfDistinct(r);
  }

  lemma {:induction false} MembersOfDistinct(r: seq<nat>)
    requires forall i, j :: 0 <= i < j < |r| ==> r[i] != r[j]
    ensures |Members(r)| == |r|
  {
    if r != [] {
      var front, last := r[..|r| - 1], r[|r| - 1];
      MembersOfDistinct(front);
      assert r == front + [last];
      assert Members(r) == Members(front) + {last};
      assert forall i :: 0 <= i < |front| ==> front[i] == r[i] != last;
      assert last !in Members(front);
    }
  }

  /** The i-th places of two top lists agree: each station ahead of it in one is ahead of it in both. */
  lemma {:induction false} TopsAgree(stats: map<nat, Stat>, limit: nat, r: seq<nat>, t: seq<nat>, n: nat)
    requires IsTop(stats, limit, r) && IsTop(stats, limit, t) && n <= |r|
    ensures |r| == |t| && r[..n] == t[..n]
  {
    if n > 0 {
      TopsAgree(stats, limit, r, t, n - 1);
      var i := n - 1;
      assert r[..n] == r[..i] + [r[i]] && t[..n] == t[..i] + [t[i]];
      NotEarlier(stats, limit, r, t, i);
      NotEarlier(stats, limit, t, r, i);
    }
  }

  lemma NotEarlier(stats: map<nat, Stat>, limit: nat, r: seq<nat>, t: seq<nat>, i: nat)
    requires IsTop(stats, limit, r) && IsTop(stats, limit, t) && i < |r| && i < |t| && r[..i] == t[..i]
    ensures r[i] == t[i] || Better(stats, r[i], t[i])
  {
    RankedIsDistinct(stats, r);
    RankedIsDistinct(stats, t);
    assert forall j :: 0 <= j < i ==> r[j] == r[..i][j] == t[..i][j] == t[j] != t[i];
    if t[i] in r {
      var j :| 0 <= j < |r| && r[j] == t[i];
      assert j == i || Better(stats, r[i], r[j]);
    }
  }

  lemma TopIsUnique(stats: map<nat, Stat>, limit: nat, r: seq<nat>, t: seq<nat>)
    requires IsTop(stats, limit, r) && IsTop(stats, limit, t)
    ensures r == t
  {
    TopsAgree(stats, limit, r, t, |r|);
    assert r[..|r|] == r && t[..|t|] == t;
  }

  // ---- Computing it ----

  /** Where `c` belongs in a ranked list. */
  method Place(stats: map<nat, Stat>, r: seq<nat>, c: nat) returns (at: nat)
    requires Ranked(stats, r) && c in stats && c !in r
    ensures at <= |r| && Ranked(stats, r[..at] + [c] + r[at..])
  {
    at := 0;
    while at < |r| && Better(stats, r[at], c)
      invariant at <= |r| && forall i :: 0 <= i < at ==> Better(stats, r[i], c)
    {
      at := at + 1;
    }
    forall i | at <= i < |r| ensures Better(stats, c, r[i]) {
      if i > at { assert Better(stats, r[at], r[i]); }
    }
  }

  method Sort(stats: map<nat, Stat>) returns (r: seq<nat>)
    ensures Ranked(stats, r) && forall c :: c in r <==> c in stats
  {
    r := [];
    var left := stats.Keys;
    while left != {}
      invariant left <= stats.Keys && Ranked(stats, r)
      invariant forall c :: c in r <==> c in stats && c !in left
      decreases |left|
    {
      var c :| c in left;
      left := left - {c};
      var at := Place(stats, r, c);
      forall x ensures x in r[..at] + [c] + r[at..] <==> x in r || x == c {
        assert r == r[..at] + r[at..];
      }
      r := r[..at] + [c] + r[at..];
    }
  }

  method TopOf(stats: map<nat, Stat>, limit: nat) returns (r: seq<nat>)
    ensures IsTop(stats, limit, r)
  {
    var all := Sort(stats);
    RankedIsDistinct(stats, all);
    assert Members(all) == stats.Keys;
    assert |stats| == |stats.Keys|;
    var n := if |all| < limit then |all| else limit;
    r := all[..n];
    assert forall j :: 0 <= j < n ==> all[j] == r[j];
    assert forall c :: c in stats && c !in r ==> exists j :: n <= j < |all| && all[j] == c;
  }

  // ---- The cards ----

  /** The last slot answers to recency: `withNewestCard`. */
  function WithNewestCard(leaders: seq<nat>, newest: seq<nat>, limit: nat): seq<nat> {
    var ranked := if |leaders| <= limit then leaders else leaders[..limit];
    if limit < 2 || newest == [] then ranked
    else
      var head := if |ranked| <= limit - 1 then ranked else ranked[..limit - 1];
      if newest[0] in head then ranked else head + [newest[0]]
  }

  function LiveOnly(stats: map<nat, Stat>): map<nat, Stat> {
    map c | c in stats && stats[c].live > 0 :: stats[c]
  }

  /** Ranked by the latest use alone. */
  function ByRecency(stats: map<nat, Stat>): map<nat, Stat> {
    map c | c in stats :: Stat(0, stats[c].last)
  }

  /** The cards of one role: the leaders by live uses, and the newest station. */
  ghost predicate IsCards(stats: map<nat, Stat>, limit: nat, cards: seq<nat>) {
    exists leaders, newest ::
      IsTop(LiveOnly(stats), limit, leaders) && IsTop(ByRecency(stats), 1, newest)
          && cards == WithNewestCard(leaders, newest, limit)
  }

  lemma CardsAreUnique(stats: map<nat, Stat>, limit: nat, a: seq<nat>, b: seq<nat>)
    requires IsCards(stats, limit, a) && IsCards(stats, limit, b)
    ensures a == b
  {
    var la, na :| IsTop(LiveOnly(stats), limit, la) && IsTop(ByRecency(stats), 1, na)
        && a == WithNewestCard(la, na, limit);
    var lb, nb :| IsTop(LiveOnly(stats), limit, lb) && IsTop(ByRecency(stats), 1, nb)
        && b == WithNewestCard(lb, nb, limit);
    TopIsUnique(LiveOnly(stats), limit, la, lb);
    TopIsUnique(ByRecency(stats), 1, na, nb);
  }

  method Cards(stats: map<nat, Stat>, limit: nat) returns (cards: seq<nat>)
    ensures IsCards(stats, limit, cards)
  {
    var leaders := TopOf(LiveOnly(stats), limit);
    var newest := TopOf(ByRecency(stats), 1);
    cards := WithNewestCard(leaders, newest, limit);
  }

  // ---- The cards in figures ----

  /** More uses in the window, or as many and a later one, or as late and a lower code. */
  predicate AheadByUses(stats: map<nat, Stat>, a: nat, b: nat)
    requires a in stats && b in stats
  {
    || stats[a].live > stats[b].live
    || (stats[a].live == stats[b].live && stats[a].last > stats[b].last)
    || (stats[a].live == stats[b].live && stats[a].last == stats[b].last && a < b)
  }

  /** Used later, or as late and a lower code. */
  predicate UsedLater(stats: map<nat, Stat>, a: nat, b: nat)
    requires a in stats && b in stats
  {
    stats[a].last > stats[b].last || (stats[a].last == stats[b].last && a < b)
  }

  /** The stations used in the window, the most used first, up to the limit; whoever is left out is behind. */
  ghost predicate AreLeaders(stats: map<nat, Stat>, limit: nat, leaders: seq<nat>) {
    && (forall i :: 0 <= i < |leaders| ==> leaders[i] in stats && stats[leaders[i]].live > 0)
    && (forall i, j :: 0 <= i < j < |leaders| ==> AheadByUses(stats, leaders[i], leaders[j]))
    && |leaders| <= limit && (|leaders| < limit ==> forall c :: c in stats && stats[c].live > 0 ==> c in leaders)
    && forall c, i :: c in stats && stats[c].live > 0 && c !in leaders && 0 <= i < |leaders| ==>
         AheadByUses(stats, leaders[i], c)
  }

  ghost predicate IsNewest(stats: map<nat, Stat>, newest: nat) {
    newest in stats && forall c :: c in stats && c != newest ==> UsedLater(stats, newest, c)
  }

  lemma TopAreLeaders(stats: map<nat, Stat>, limit: nat, leaders: seq<nat>)
    requires IsTop(LiveOnly(stats), limit, leaders)
    ensures AreLeaders(stats, limit, leaders)
  {
    var live := LiveOnly(stats);
    if |leaders| < limit {
      RankedIsDistinct(live, leaders);
      assert Members(leaders) <= live.Keys && |live.Keys| == |live|;
      SameSize(Members(leaders), live.Keys);
      assert forall c :: c in stats && stats[c].live > 0 ==> c in live.Keys;
    }
    forall i, j | 0 <= i < j < |leaders| ensures AheadByUses(stats, leaders[i], leaders[j]) {
      assert Better(live, leaders[i], leaders[j]);
    }
    forall c, i | c in stats && stats[c].live > 0 && c !in leaders && 0 <= i < |leaders|
      ensures AheadByUses(stats, leaders[i], c)
    {
      assert c in live;
    }
  }

  lemma LeadersAreDistinct(stats: map<nat, Stat>, limit: nat, leaders: seq<nat>)
    requires AreLeaders(stats, limit, leaders)
    ensures Distinct(leaders) && forall c :: c in leaders ==> c in stats
  {
    forall i, j | 0 <= i < j < |leaders| ensures leaders[i] != leaders[j] {
      assert AheadByUses(stats, leaders[i], leaders[j]);
    }
  }

  lemma SameSize(a: set<nat>, b: set<nat>)
    requires a <= b && |a| == |b|
    ensures a == b
  {
    assert b == a + (b - a);
    assert |b - a| == 0;
  }

  /** The newest card is the station used last; on a tie, the first by code. */
  lemma NewestIsLatest(stats: map<nat, Stat>, top: seq<nat>)
    requires IsTop(ByRecency(stats), 1, top)
    ensures top == [] <==> |stats| == 0
    ensures top != [] ==> |top| == 1 && IsNewest(stats, top[0])
  {
    var recent := ByRecency(stats);
    assert recent.Keys == stats.Keys && |recent| == |recent.Keys| && |stats| == |stats.Keys|;
    if top != [] {
      forall c | c in stats && c != top[0] ensures UsedLater(stats, top[0], c) {
        assert c in recent && c !in top;
      }
    }
  }

  /** The leaders have their slots, but for the last: when the newest station is not among the leaders
      before it, it takes the last slot, or one more. */
  ghost predicate NewestHasTheLastSlot(leaders: seq<nat>, newest: nat, limit: nat, cards: seq<nat>)
    requires |leaders| <= limit && limit >= 2
  {
    var n := if |leaders| < limit then |leaders| else limit - 1;
    if newest in leaders[..n] then cards == leaders
    else
      && |cards| == (if limit < |leaders| + 1 then limit else |leaders| + 1)
      && (forall i :: 0 <= i < limit - 1 && i < |leaders| ==> cards[i] == leaders[i])
      && cards[|cards| - 1] == newest
  }

  ghost predicate Distinct(r: seq<nat>) {
    forall i, j :: 0 <= i < j < |r| ==> r[i] != r[j]
  }

  lemma LastSlotIsTheNewest(leaders: seq<nat>, newest: nat, limit: nat)
    requires |leaders| <= limit && limit >= 2 && Distinct(leaders)
    ensures var cards := WithNewestCard(leaders, [newest], limit);
      && NewestHasTheLastSlot(leaders, newest, limit, cards) && newest in cards
      && Distinct(cards) && |cards| <= limit && forall c :: c in cards ==> c == newest || c in leaders
  {
    var n := if |leaders| < limit then |leaders| else limit - 1;
    var cards := WithNewestCard(leaders, [newest], limit);
    if newest in leaders[..n] {
      assert cards == leaders && newest in leaders;
    } else {
      assert cards == leaders[..n] + [newest];
      assert forall i :: 0 <= i < n ==> leaders[i] == leaders[..n][i] != newest;
    }
  }

  lemma WithoutNewest(leaders: seq<nat>, newest: seq<nat>, limit: nat)
    requires |leaders| <= limit && (limit == 1 || newest == [])
    ensures WithNewestCard(leaders, newest, limit) == leaders
  {
  }

  /** The cards of any figures: no card twice, never more than the limit, only stations ever used; with one
      slot the leader's alone, with more the leaders in their places and the newest station among them. */
  lemma CardsKeepNewestAndLeaders(stats: map<nat, Stat>, limit: nat, cards: seq<nat>)
      returns (leaders: seq<nat>, newest: nat)
    requires limit >= 1 && IsCards(stats, limit, cards)
    ensures Distinct(cards)
    ensures |cards| <= limit && forall c :: c in cards ==> c in stats
    ensures AreLeaders(stats, limit, leaders) && (|stats| > 0 ==> IsNewest(stats, newest))
    ensures limit == 1 || |stats| == 0 ==> cards == leaders
    ensures limit >= 2 && |stats| > 0 ==> newest in cards && NewestHasTheLastSlot(leaders, newest, limit, cards)
  {
    var first, latest :| IsTop(LiveOnly(stats), limit, first) && IsTop(ByRecency(stats), 1, latest)
        && cards == WithNewestCard(first, latest, limit);
    leaders, newest := first, if latest == [] then 0 else latest[0];
    TopAreLeaders(stats, limit, leaders);
    NewestIsLatest(stats, latest);
    LeadersAreDistinct(stats, limit, leaders);
    if limit == 1 || latest == [] {
      WithoutNewest(leaders, latest, limit);
    } else {
      assert latest == [newest];
      LastSlotIsTheNewest(leaders, newest, limit);
    }
  }

  /** Leaders and newest station are what the figures make them: there is one choice. */
  lemma LeadersAreUnique(stats: map<nat, Stat>, limit: nat, a: seq<nat>, b: seq<nat>)
    requires AreLeaders(stats, limit, a) && AreLeaders(stats, limit, b)
    ensures a == b
  {
    LeadersAreTop(stats, limit, a);
    LeadersAreTop(stats, limit, b);
    TopIsUnique(LiveOnly(stats), limit, a, b);
  }

  lemma LeadersAreTop(stats: map<nat, Stat>, limit: nat, leaders: seq<nat>)
    requires AreLeaders(stats, limit, leaders)
    ensures IsTop(LiveOnly(stats), limit, leaders)
  {
    var live := LiveOnly(stats);
    assert Ranked(live, leaders);
    RankedIsDistinct(live, leaders);
    assert Members(leaders) <= live.Keys && |live.Keys| == |live|;
    FitsInside(Members(leaders), live.Keys);
    if |leaders| < limit {
      assert Members(leaders) == live.Keys;
    }
    forall c, i | c in live && c !in leaders && 0 <= i < |leaders| ensures Better(live, leaders[i], c) {
      assert AheadByUses(stats, leaders[i], c);
    }
  }

  lemma FitsInside(a: set<nat>, b: set<nat>)
    requires a <= b
    ensures |a| <= |b|
  {
    assert b == a + (b - a);
  }
}
