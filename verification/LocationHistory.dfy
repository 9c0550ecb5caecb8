/**
 The complete history of station uses, which no backend keeps: every use ever recorded, in order.
 What the ranking ought to show is defined here, by counting in that history.
 */
module LocationHistory {
  import opened LocationRanking
  import opened Wrappers

  datatype Role = Origin | Destination

  datatype Use = Use(role: Role, code: nat, at: nat) {
    predicate Of(r: Role, c: nat) {
      role == r && code == c
    }
  }

  const DAY_MS: nat := 86_400_000
  const CARD_LIMIT: nat := 3

  function Day(at: nat): int {
    at / DAY_MS
  }

  /** The first day that still counts. */
  function CutoffDay(now: nat, windowDays: nat): int {
    Day(now) - windowDays
  }

  function NormalizeLimit(limit: int): (n: nat)
    ensures 1 <= n <= CARD_LIMIT && (1 <= limit <= CARD_LIMIT ==> n == limit)
    ensures limit < 0 ==> n == 1
    ensures limit == 0 || limit > CARD_LIMIT ==> n == CARD_LIMIT
  {
    if limit == 0 || limit > CARD_LIMIT then CARD_LIMIT else if limit < 1 then 1 else limit
  }

  // ---- Counting ----

  /** Which days are counted. */
  datatype Days = Always | From(cutoff: int) | Only(days: set<int>) {
    ghost predicate Has(d: int) {
      match this
      case Always => true
      case From(cutoff) => d >= cutoff
      case Only(days) => d in days
    }
  }

  ghost function CountIn(h: seq<Use>, role: Role, code: nat, days: Days): nat {
    if h == [] then 0
    else
      var u := h[|h| - 1];
      CountIn(h[..|h| - 1], role, code, days) + if u.Of(role, code) && days.Has(Day(u.at)) then 1 else 0
  }

  ghost function LastUsed(h: seq<Use>, role: Role, code: nat): nat {
    if h == [] then 0
    else
      var u, before := h[|h| - 1], LastUsed(h[..|h| - 1], role, code);
      if u.Of(role, code) && u.at > before then u.at else before
  }

  ghost function UsedCodes(h: seq<Use>, role: Role): set<nat> {
    if h == [] then {}
    else
      var u := h[|h| - 1];
      UsedCodes(h[..|h| - 1], role) + if u.role == role then {u.code} else {}
  }

  ghost function CountOn(h: seq<Use>, role: Role, code: nat, day: int): nat {
    CountIn(h, role, code, Only({day}))
  }

  /** The station's figures at a cutoff: its uses from that day on, and its latest use ever. */
  ghost function StatsOf(h: seq<Use>, role: Role, cutoff: int): map<nat, Stat> {
    map c | c in UsedCodes(h, role) :: Stat(CountIn(h, role, c, From(cutoff)), LastUsed(h, role, c))
  }

  datatype Suggestions = Suggestions(origin: seq<nat>, destination: seq<nat>)

  /** What the desk should be shown: the cards of the complete history in the window. */
  ghost predicate IsAnswer(h: seq<Use>, windowDays: nat, limit: int, now: nat, s: Suggestions) {
    && IsCards(StatsOf(h, Origin, CutoffDay(now, windowDays)), NormalizeLimit(limit), s.origin)
    && IsCards(StatsOf(h, Destination, CutoffDay(now, windowDays)), NormalizeLimit(limit), s.destination)
  }

  lemma AnswersAreUnique(h: seq<Use>, windowDays: nat, limit: int, now: nat, a: Suggestions, b: Suggestions)
    requires IsAnswer(h, windowDays, limit, now, a) && IsAnswer(h, windowDays, limit, now, b)
    ensures a == b
  {
    var cutoff := CutoffDay(now, windowDays);
    CardsAreUnique(StatsOf(h, Origin, cutoff), NormalizeLimit(limit), a.origin, b.origin);
    CardsAreUnique(StatsOf(h, Destination, cutoff), NormalizeLimit(limit), a.destination, b.destination);
  }

  // ---- One more use ----

  lemma OneMoreUse(h: seq<Use>, u: Use, role: Role, code: nat, days: Days)
    ensures CountIn(h + [u], role, code, days) ==
            CountIn(h, role, code, days) + if u.Of(role, code) && days.Has(Day(u.at)) then 1 else 0
    ensures LastUsed(h + [u], role, code) ==
            if u.Of(role, code) && u.at > LastUsed(h, role, code) then u.at else LastUsed(h, role, code)
    ensures UsedCodes(h + [u], role) == UsedCodes(h, role) + if u.role == role then {u.code} else {}
  {
    assert (h + [u])[..|h|] == h;
  }

  /** Counting day by day: the counts of disjoint sets of days add up. */
  lemma {:induction false} CountsAddUp(h: seq<Use>, role: Role, code: nat, a: set<int>, b: set<int>)
    requires a !! b
    ensures CountIn(h, role, code, Only(a + b)) == CountIn(h, role, code, Only(a)) + CountIn(h, role, code, Only(b))
  {
    if h != [] {
      CountsAddUp(h[..|h| - 1], role, code, a, b);
    }
  }

  /** Days without uses do not matter. */
  lemma {:induction false} CountsAgree(h: seq<Use>, role: Role, code: nat, a: Days, b: Days)
    requires forall d: int :: CountOn(h, role, code, d) > 0 ==> (a.Has(d) <==> b.Has(d))
    ensures CountIn(h, role, code, a) == CountIn(h, role, code, b)
  {
    if h != [] {
      var u := h[|h| - 1];
      forall d: int | CountOn(h[..|h| - 1], role, code, d) > 0 ensures a.Has(d) <==> b.Has(d) {
        assert CountOn(h, role, code, d) > 0;
      }
      CountsAgree(h[..|h| - 1], role, code, a, b);
      assert u.Of(role, code) ==> CountOn(h, role, code, Day(u.at)) > 0;
    }
  }

  /** A station never used has no uses on any days, one used has some. */
  lemma {:induction false} UsedMeansCounted(h: seq<Use>, role: Role, code: nat)
    ensures code in UsedCodes(h, role) <==> CountIn(h, role, code, Always) > 0
    ensures code !in UsedCodes(h, role) ==> LastUsed(h, role, code) == 0
  {
    if h != [] {
      UsedMeansCounted(h[..|h| - 1], role, code);
    }
  }

  lemma {:induction false} CountGrowsWithDays(h: seq<Use>, role: Role, code: nat, a: Days, b: Days)
    requires forall d: int :: a.Has(d) ==> b.Has(d)
    ensures CountIn(h, role, code, a) <= CountIn(h, role, code, b)
  {
    if h != [] {
      CountGrowsWithDays(h[..|h| - 1], role, code, a, b);
    }
  }

  /** Some day holds the use when there is one. */
  lemma {:induction false} SomeDayCounts(h: seq<Use>, role: Role, code: nat, days: Days) returns (d: int)
    requires CountIn(h, role, code, days) > 0
    ensures days.Has(d) && CountOn(h, role, code, d) > 0
  {
    var u := h[|h| - 1];
    if u.Of(role, code) && days.Has(Day(u.at)) {
      d := Day(u.at);
    } else {
      d := SomeDayCounts(h[..|h| - 1], role, code, days);
    }
  }
}
