/**
 The "recent" strip of one browser session: the last three stations per role, kept a month. The store
 keeps no more than three entries per session and role, yet shows what the complete history shows, as
 long as the cap on all entries was never reached.
 */
module LocationRecents {
  import opened LocationHistory
  import opened LocationRanking

  datatype RecentKey = RecentKey(session: nat, role: Role, code: nat)

  datatype RecentUse = RecentUse(key: RecentKey, at: nat)

  // ---- The complete history ----

  /** When each station of a session and role was last used. */
  ghost function Lasts(h: seq<RecentUse>, session: nat, role: Role): map<nat, nat> {
    if h == [] then map[]
    else
      var u, before := h[|h| - 1], Lasts(h[..|h| - 1], session, role);
      if u.key.session == session && u.key.role == role then before[u.key.code := u.at] else before
  }

  ghost function Since(lasts: map<nat, nat>, since: int): map<nat, Stat> {
    map c | c in lasts && lasts[c] >= since :: Stat(0, lasts[c])
  }

  /** The best three stations of `full`, as a set with their figures. */
  ghost predicate IsBest(full: map<nat, Stat>, kept: map<nat, Stat>) {
    && kept.Keys <= full.Keys
    && (forall c :: c in kept ==> kept[c] == full[c])
    && |kept.Keys| == (if |full.Keys| < CARD_LIMIT then |full.Keys| else CARD_LIMIT)
    && (forall k, c :: k in kept && c in full && c !in kept ==> Better(full, k, c))
  }

  ghost predicate ByTimeOnly(stats: map<nat, Stat>) {
    forall c :: c in stats ==> stats[c].live == 0
  }

  lemma SubsetOfSameSize(a: set<nat>, b: set<nat>)
    requires a <= b && |a| == |b|
    ensures a == b
  {
    assert b == a + (b - a);
  }

  lemma {:induction false} SubsetIsSmaller<T>(a: set<T>, b: set<T>)
    requires a <= b
    ensures |a| <= |b|
  {
    assert b == a + (b - a);
  }

  lemma CardOfMap<K, T>(m: map<K, T>)
    ensures |m| == |m.Keys|
  {
  }

  /** Reading from the three kept is reading from everything. */
  lemma TopOfBestIsTop(full: map<nat, Stat>, kept: map<nat, Stat>, limit: nat, r: seq<nat>)
    requires IsBest(full, kept) && limit <= CARD_LIMIT && IsTop(kept, limit, r)
    ensures IsTop(full, limit, r)
  {
    CardOfMap(full);
    CardOfMap(kept);
    assert forall i :: 0 <= i < |r| ==> r[i] in kept;
    forall c, i | c in full && c !in r && 0 <= i < |r| ensures Better(full, r[i], c) {
      if c in kept {
        assert Better(kept, r[i], c);
      }
    }
    assert forall i, j :: 0 <= i < j < |r| ==> Better(kept, r[i], r[j]);
  }

  ghost function AheadOf(full: map<nat, Stat>, c: nat): set<nat>
    requires c in full
  {
    set x | x in full && Better(full, x, c)
  }

  /** The best three are those with fewer than three stations ahead of them. */
  lemma BestHaveFewAhead(full: map<nat, Stat>, kept: map<nat, Stat>, c: nat)
    requires IsBest(full, kept)
    ensures c in kept <==> c in full && |AheadOf(full, c)| < CARD_LIMIT
  {
    if c in kept {
      assert AheadOf(full, c) <= kept.Keys - {c} by {
        forall x | x in AheadOf(full, c) ensures x in kept && x != c {
          if x !in kept { assert false; }
        }
      }
      SubsetIsSmaller(AheadOf(full, c), kept.Keys - {c});
    } else if c in full {
      assert kept.Keys <= AheadOf(full, c);
      if |full.Keys| < CARD_LIMIT { SubsetOfSameSize(kept.Keys, full.Keys); }
      SubsetIsSmaller(kept.Keys, AheadOf(full, c));
    }
  }

  // ---- What there is to keep ----

  ghost function KeysOf(h: seq<RecentUse>): set<RecentKey> {
    set u | u in h :: u.key
  }

  /** The station was used since then and is among the last three of its session and role. */
  ghost predicate Leads(h: seq<RecentUse>, since: int, k: RecentKey) {
    var full := Since(Lasts(h, k.session, k.role), since);
    k.code in full && |AheadOf(full, k.code)| < CARD_LIMIT
  }

  /** The unexpired first three of every session and role of a history. */
  ghost function Wanted(h: seq<RecentUse>, since: int): set<RecentKey> {
    set k | k in KeysOf(h) && Leads(h, since, k)
  }

  lemma {:induction false} LastsAreOfHistory(h: seq<RecentUse>, k: RecentKey)
    requires k.code in Lasts(h, k.session, k.role)
    ensures k in KeysOf(h)
  {
    var u, before := h[|h| - 1], h[..|h| - 1];
    assert u in h && u.key in KeysOf(h);
    if u.key != k {
      LastsAreOfHistory(before, k);
      var v :| v in before && v.key == k;
      assert v in h;
    }
  }

  function Younger(kept: map<nat, Stat>, since: int): map<nat, Stat> {
    map c | c in kept && kept[c].last >= since :: kept[c]
  }

  function Picked(stats: map<nat, Stat>, r: seq<nat>): map<nat, Stat> {
    map c | c in stats && c in r :: stats[c]
  }

  /** Expiring by age keeps the best three: whoever outranks an expired station was used no earlier. */
  lemma BestAfterExpiry(full: map<nat, Stat>, kept: map<nat, Stat>, since: int)
    requires IsBest(full, kept) && ByTimeOnly(full)
    ensures IsBest(Younger(full, since), Younger(kept, since))
  {
    var after, left := Younger(full, since), Younger(kept, since);
    forall k, c | k in left && c in after && c !in left ensures Better(after, k, c) {
      assert Better(full, k, c);
    }
    ExpirySize(full, kept, since);
  }

  lemma ExpirySize(full: map<nat, Stat>, kept: map<nat, Stat>, since: int)
    requires IsBest(full, kept) && ByTimeOnly(full)
    ensures var after, left := Younger(full, since), Younger(kept, since);
      |left.Keys| == if |after.Keys| < CARD_LIMIT then |after.Keys| else CARD_LIMIT
  {
    var after, left := Younger(full, since), Younger(kept, since);
    SubsetIsSmaller(after.Keys, full.Keys);
    SubsetIsSmaller(left.Keys, kept.Keys);
    if left.Keys != kept.Keys {
      var x :| x in kept && x !in left;
      assert forall c :: c in full && c !in kept ==> Better(full, x, c);
      assert left.Keys == after.Keys;
    } else if |full.Keys| <= CARD_LIMIT {
      SubsetOfSameSize(kept.Keys, full.Keys);
      assert left.Keys == after.Keys;
    } else {
      SubsetIsSmaller(left.Keys, after.Keys);
    }
  }

  /** A use now: the best three of the kept ones and this one are the best three of everything. */
  lemma BestAfterUse(full: map<nat, Stat>, kept: map<nat, Stat>, c: nat, s: Stat, r: seq<nat>)
    requires IsBest(full, kept) && ByTimeOnly(full) && s.live == 0 && forall x :: x in full ==> full[x].last <= s.last
    requires IsTop(kept[c := s], CARD_LIMIT, r)
    ensures IsBest(full[c := s], Picked(kept[c := s], r))
  {
    var plus := kept[c := s];
    RankedIsDistinct(plus, r);
    assert Picked(plus, r).Keys == Members(r);
    UseSize(full, kept, c, s);
    forall k, x | k in r && x in full[c := s] && x !in r ensures Better(full[c := s], k, x) {
      if x in plus {
        var i :| 0 <= i < |r| && r[i] == k;
        assert Better(plus, r[i], x);
      } else {
        assert |kept.Keys| == CARD_LIMIT by {
          if |full.Keys| < CARD_LIMIT { SubsetOfSameSize(kept.Keys, full.Keys); }
        }
        OutsiderIsWorse(full, kept, c, s, r, x, k);
      }
    }
  }

  lemma UseSize(full: map<nat, Stat>, kept: map<nat, Stat>, c: nat, s: Stat)
    requires IsBest(full, kept)
    ensures |kept[c := s].Keys| == |kept[c := s]|
    ensures (|kept[c := s]| < CARD_LIMIT || |full[c := s].Keys| < CARD_LIMIT) ==> |kept[c := s]| == |full[c := s].Keys|
  {
    CardOfMap(kept[c := s]);
    assert full[c := s].Keys == full.Keys + {c} && kept[c := s].Keys == kept.Keys + {c};
    if |full.Keys| < CARD_LIMIT {
      SubsetOfSameSize(kept.Keys, full.Keys);
    } else {
      SubsetIsSmaller(full.Keys, full.Keys + {c});
      SubsetIsSmaller(kept.Keys, kept.Keys + {c});
    }
  }

  /** A station that was already outside stays behind: three kept ones are ahead of it, so one of them
      stands between it and the newcomer or pushes the newcomer out. */
  lemma OutsiderIsWorse(full: map<nat, Stat>, kept: map<nat, Stat>, c: nat, s: Stat, r: seq<nat>, x: nat, k: nat)
    requires IsBest(full, kept) && ByTimeOnly(full) && |kept.Keys| == CARD_LIMIT && s.live == 0
        && forall y :: y in full ==> full[y].last <= s.last
    requires IsTop(kept[c := s], CARD_LIMIT, r) && k in r && x in full && x != c && x !in kept
    ensures Better(full[c := s], k, x)
  {
    var plus := kept[c := s];
    RankedIsDistinct(plus, r);
    assert k in plus;
    if k == c && c !in kept {
      // c took somebody's place
      if kept.Keys <= Members(r) {
        SubsetIsSmaller(kept.Keys + {c}, Members(r));
        assert false;
      }
      var y :| y in kept.Keys && y !in Members(r);
      var i :| 0 <= i < |r| && r[i] == k;
      assert Better(plus, r[i], y);
      assert Better(full, y, x);
    } else if k == c {
      assert Better(full, c, x);
    } else {
      assert Better(full, k, x);
    }
  }
}
