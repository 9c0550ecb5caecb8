/**
 Deduplicating offers as they arrive: one offer per key, in the order keys first appeared, the one with
 most seats and then the shortest; among equals the first.
 */
module OfferDedup {
  import opened Wrappers

  /** The key is signature, price, currency and baggage together; nothing else about it matters. */
  datatype Offer = Offer(key: nat, seats: Option<nat>, minutes: nat, ref: nat)

  /** Strictly preferable: a later offer must be this to replace an earlier one. */
  predicate Better(a: Offer, b: Offer) {
    a.seats.GetOr(0) > b.seats.GetOr(0) || (a.seats.GetOr(0) == b.seats.GetOr(0) && a.minutes < b.minutes)
  }

  // ---- What the result should be ----

  /** The keys in order of first appearance. */
  function FirstKeys(xs: seq<Offer>): seq<nat> {
    if xs == [] then []
    else
      var keys, last := FirstKeys(xs[..|xs| - 1]), xs[|xs| - 1].key;
      if last in keys then keys else keys + [last]
  }

  /** The first of the best offers of a key. */
  function BestOf(xs: seq<Offer>, key: nat): Option<Offer> {
    if xs == [] then None
    else
      var best, last := BestOf(xs[..|xs| - 1], key), xs[|xs| - 1];
      if last.key == key && (best.None? || Better(last, best.value)) then Some(last) else best
  }

  ghost predicate IsDeduped(xs: seq<Offer>, r: seq<Offer>) {
    var keys := FirstKeys(xs);
    |r| == |keys| && forall i :: 0 <= i < |r| ==> BestOf(xs, keys[i]) == Some(r[i])
  }

  lemma {:induction false} KeysAppear(xs: seq<Offer>)
    ensures forall i, j :: 0 <= i < j < |FirstKeys(xs)| ==> FirstKeys(xs)[i] != FirstKeys(xs)[j]
    ensures forall k :: k in FirstKeys(xs) <==> BestOf(xs, k).Some?
  {
    if xs != [] {
      KeysAppear(xs[..|xs| - 1]);
    }
  }

  /** No offer of the key among the first `n` has more seats, or as many and a shorter trip. */
  ghost predicate NoneBeats(xs: seq<Offer>, n: nat, best: Offer)
    requires n <= |xs|
  {
    forall j :: 0 <= j < n && xs[j].key == best.key ==>
      && xs[j].seats.GetOr(0) <= best.seats.GetOr(0)
      && (xs[j].seats.GetOr(0) == best.seats.GetOr(0) ==> best.minutes <= xs[j].minutes)
  }

  /** The offer at `at` has the best figures of its key, and no earlier one has the same. */
  ghost predicate IsFirstOfTheBest(xs: seq<Offer>, at: nat, best: Offer) {
    && at < |xs| && xs[at] == best && NoneBeats(xs, |xs|, best)
    && forall j :: 0 <= j < at && xs[j].key == best.key ==>
         xs[j].seats.GetOr(0) < best.seats.GetOr(0) || xs[j].minutes > best.minutes
  }

  /** A key of the list has a best offer, of that key: the first one with the most seats and, of those, the
      shortest trip. */
  lemma {:induction false} BestIsBest(xs: seq<Offer>, key: nat) returns (at: nat)
    ensures BestOf(xs, key).Some? <==> exists x :: x in xs && x.key == key
    ensures BestOf(xs, key).Some? ==> BestOf(xs, key).value.key == key && BestOf(xs, key).value in xs
    ensures BestOf(xs, key).Some? ==> IsFirstOfTheBest(xs, at, BestOf(xs, key).value)
  {
    at := 0;
    if xs != [] {
      var front, last := xs[..|xs| - 1], xs[|xs| - 1];
      assert xs == front + [last];
      at := BestIsBest(front, key);
      if last.key == key && (BestOf(front, key).None? || Better(last, BestOf(front, key).value)) {
        assert BestOf(front, key).None? ==> forall x :: x in front ==> x.key != key;
        at := |xs| - 1;
      }
    }
  }

  /** The keys are in the order of first appearance: when `a` stands before `b`, some offer of `a` comes
      before every offer of `b`. */
  lemma {:induction false} KeysInOrder(xs: seq<Offer>, i: nat, j: nat) returns (at: nat)
    requires i < j < |FirstKeys(xs)|
    ensures at < |xs| && xs[at].key == FirstKeys(xs)[i]
    ensures forall k :: 0 <= k <= at ==> xs[k].key != FirstKeys(xs)[j]
  {
    var front, last := xs[..|xs| - 1], xs[|xs| - 1];
    KeysAppear(xs);
    assert forall k :: 0 <= k < |front| ==> xs[k] == front[k];
    if j < |FirstKeys(front)| {
      at := KeysInOrder(front, i, j);
    } else {
      assert FirstKeys(front)[i] in FirstKeys(front);
      KeysAppear(front);
      at := BestIsBest(front, FirstKeys(front)[i]);
      var none := BestIsBest(front, last.key);
      assert forall k :: 0 <= k < |front| ==> front[k] in front;
    }
  }

  // ---- The loop ----

  /** What the map holds after one more offer; setting a key again keeps its place. */
  function Insert(kept: seq<Offer>, o: Offer): seq<Offer> {
    if kept == [] then [o]
    else if kept[0].key == o.key then (if Better(o, kept[0]) then [o] + kept[1..] else kept)
    else [kept[0]] + Insert(kept[1..], o)
  }

  function FoldFrom(kept: seq<Offer>, xs: seq<Offer>): seq<Offer> {
    if xs == [] then kept else Insert(FoldFrom(kept, xs[..|xs| - 1]), xs[|xs| - 1])
  }

  function Dedupe(xs: seq<Offer>): seq<Offer> {
    FoldFrom([], xs)
  }

  ghost predicate Distinct(kept: seq<Offer>) {
    forall i, j :: 0 <= i < j < |kept| ==> kept[i].key != kept[j].key
  }

  /** Inserting a key not there appends. */
  lemma {:induction false} InsertNew(kept: seq<Offer>, o: Offer)
    requires forall i :: 0 <= i < |kept| ==> kept[i].key != o.key
    ensures Insert(kept, o) == kept + [o]
  {
    if kept != [] {
      InsertNew(kept[1..], o);
    }
  }

  /** Inserting a key that is there replaces its offer when better, in its place. */
  lemma {:induction false} InsertKnown(kept: seq<Offer>, o: Offer, i: nat)
    requires i < |kept| && kept[i].key == o.key && Distinct(kept)
    ensures Insert(kept, o) == if Better(o, kept[i]) then kept[i := o] else kept
  {
    if i > 0 {
      assert kept[0].key != kept[i].key;
      assert Distinct(kept[1..]) by {
        assert forall j :: 0 <= j < |kept| - 1 ==> kept[1..][j] == kept[j + 1];
      }
      InsertKnown(kept[1..], o, i - 1);
      assert kept == [kept[0]] + kept[1..];
    }
  }

  /** One offer per key, in the order of the keys. */
  ghost predicate Lined(keys: seq<nat>, kept: seq<Offer>) {
    && |kept| == |keys| && Distinct(kept)
    && forall i :: 0 <= i < |kept| ==> kept[i].key == keys[i]
  }

  lemma LinedNew(keys: seq<nat>, kept: seq<Offer>, o: Offer)
    requires Lined(keys, kept) && o.key !in keys
    ensures Insert(kept, o) == kept + [o] && Lined(keys + [o.key], kept + [o])
  {
    InsertNew(kept, o);
  }

  lemma LinedKnown(keys: seq<nat>, kept: seq<Offer>, o: Offer) returns (at: nat)
    requires Lined(keys, kept) && o.key in keys
    ensures at < |keys| && keys[at] == o.key
    ensures Insert(kept, o) == (if Better(o, kept[at]) then kept[at := o] else kept) && Lined(keys, Insert(kept, o))
  {
    at :| 0 <= at < |keys| && keys[at] == o.key;
    InsertKnown(kept, o, at);
  }

  /** The map and the order of its keys hold these offers. */
  ghost predicate Holds(order: seq<nat>, deduped: map<nat, Offer>, kept: seq<Offer>) {
    && Lined(order, kept) && (forall k :: k in deduped <==> k in order)
    && forall j :: 0 <= j < |kept| ==> kept[j].key in deduped && deduped[kept[j].key] == kept[j]
  }

  lemma HoldsNew(order: seq<nat>, deduped: map<nat, Offer>, kept: seq<Offer>, o: Offer)
    requires Holds(order, deduped, kept) && o.key !in deduped
    ensures Holds(order + [o.key], deduped[o.key := o], Insert(kept, o))
  {
    LinedNew(order, kept, o);
  }

  lemma HoldsKnown(order: seq<nat>, deduped: map<nat, Offer>, kept: seq<Offer>, o: Offer)
    requires Holds(order, deduped, kept) && o.key in deduped
    ensures Holds(order, if Better(o, deduped[o.key]) then deduped[o.key := o] else deduped, Insert(kept, o))
  {
    var at := LinedKnown(order, kept, o);
    assert kept[at].key == o.key;
    assert forall j :: 0 <= j < |kept| && j != at ==> kept[j].key != o.key;
  }

  /** One loop over an insertion-ordered map: the order of its keys and its entries. */
  method DedupeOffers(offers: seq<Offer>) returns (r: seq<Offer>)
    ensures r == Dedupe(offers)
  {
    var order: seq<nat> := [];
    var deduped: map<nat, Offer> := map[];
    var i := 0;
    while i < |offers|
      invariant i <= |offers| && Holds(order, deduped, Dedupe(offers[..i]))
    {
      var offer := offers[i];
      assert offers[..i + 1][..i] == offers[..i];
      if offer.key !in deduped {
        HoldsNew(order, deduped, Dedupe(offers[..i]), offer);
        order := order + [offer.key];
        deduped := deduped[offer.key := offer];
      } else {
        HoldsKnown(order, deduped, Dedupe(offers[..i]), offer);
        if Better(offer, deduped[offer.key]) {
          deduped := deduped[offer.key := offer];
        }
      }
      i := i + 1;
    }
    assert offers[..i] == offers;
    r := seq(|order|, j requires 0 <= j < |order| => deduped[order[j]]);
    assert r == Dedupe(offers);
  }

  // ---- The loop computes it ----

  /** Each kept offer is the best of the key in its place. */
  ghost predicate Mirrors(xs: seq<Offer>, kept: seq<Offer>) {
    IsDeduped(xs, kept) && Lined(FirstKeys(xs), kept)
  }

  lemma BestAfter(xs: seq<Offer>, o: Offer, key: nat)
    ensures BestOf(xs + [o], key) ==
            if o.key == key && (BestOf(xs, key).None? || Better(o, BestOf(xs, key).value)) then Some(o)
            else BestOf(xs, key)
    ensures FirstKeys(xs + [o]) == if o.key in FirstKeys(xs) then FirstKeys(xs) else FirstKeys(xs) + [o.key]
  {
    assert (xs + [o])[..|xs|] == xs;
  }

  lemma NotSeen(xs: seq<Offer>, key: nat)
    requires key !in FirstKeys(xs)
    ensures BestOf(xs, key).None?
  {
    KeysAppear(xs);
  }

  lemma DedupedNew(xs: seq<Offer>, kept: seq<Offer>, o: Offer)
    requires IsDeduped(xs, kept) && o.key !in FirstKeys(xs)
    ensures IsDeduped(xs + [o], kept + [o])
  {
    var keys := FirstKeys(xs);
    NotSeen(xs, o.key);
    BestAfter(xs, o, o.key);
    forall i | 0 <= i < |keys| ensures BestOf(xs + [o], keys[i]) == Some(kept[i]) {
      assert keys[i] in keys;
      BestAfter(xs, o, keys[i]);
    }
  }

  lemma DedupedKnown(xs: seq<Offer>, kept: seq<Offer>, o: Offer, at: nat)
    requires IsDeduped(xs, kept) && Lined(FirstKeys(xs), kept) && at < |kept| && kept[at].key == o.key
    ensures IsDeduped(xs + [o], if Better(o, kept[at]) then kept[at := o] else kept)
  {
    var keys := FirstKeys(xs);
    assert keys[at] == o.key;
    BestAfter(xs, o, o.key);
    forall i | 0 <= i < |keys|
      ensures BestOf(xs + [o], keys[i]) == if i == at && Better(o, kept[at]) then Some(o) else Some(kept[i])
    {
      BestAfter(xs, o, keys[i]);
      assert i != at ==> kept[i].key != kept[at].key;
    }
  }

  lemma MirrorsAfter(xs: seq<Offer>, kept: seq<Offer>, o: Offer)
    requires Mirrors(xs, kept)
    ensures Mirrors(xs + [o], Insert(kept, o))
  {
    BestAfter(xs, o, o.key);
    if o.key in FirstKeys(xs) {
      var at := LinedKnown(FirstKeys(xs), kept, o);
      DedupedKnown(xs, kept, o, at);
    } else {
      LinedNew(FirstKeys(xs), kept, o);
      DedupedNew(xs, kept, o);
    }
  }

  lemma {:induction false} DedupeIsDeduped(xs: seq<Offer>)
    ensures Mirrors(xs, Dedupe(xs))
  {
    if xs != [] {
      var front, last := xs[..|xs| - 1], xs[|xs| - 1];
      DedupeIsDeduped(front);
      assert front + [last] == xs;
      MirrorsAfter(front, Dedupe(front), last);
    }
  }

  ghost predicate AppearsBefore(xs: seq<Offer>, a: nat, b: nat) {
    exists at :: 0 <= at < |xs| && xs[at].key == a && forall k :: 0 <= k <= at ==> xs[k].key != b
  }

  ghost predicate HasKey(kept: seq<Offer>, key: nat) {
    exists i :: 0 <= i < |kept| && kept[i].key == key
  }

  ghost predicate IsTheBest(xs: seq<Offer>, best: Offer) {
    exists at :: IsFirstOfTheBest(xs, at, best)
  }

  ghost predicate InOrder(xs: seq<Offer>, kept: seq<Offer>, i: nat, j: nat)
    requires i < j < |kept|
  {
    kept[i].key != kept[j].key && AppearsBefore(xs, kept[i].key, kept[j].key)
  }

  lemma KeptHasKey(xs: seq<Offer>, kept: seq<Offer>, x: Offer)
    requires Mirrors(xs, kept) && x in xs
    ensures HasKey(kept, x.key)
  {
    var at := BestIsBest(xs, x.key);
    KeysAppear(xs);
    var i :| 0 <= i < |FirstKeys(xs)| && FirstKeys(xs)[i] == x.key;
    assert kept[i].key == x.key;
  }

  lemma KeptIsTheBest(xs: seq<Offer>, kept: seq<Offer>, i: nat)
    requires Mirrors(xs, kept) && i < |kept|
    ensures IsTheBest(xs, kept[i])
  {
    var at := BestIsBest(xs, FirstKeys(xs)[i]);
  }

  lemma KeptInOrder(xs: seq<Offer>, kept: seq<Offer>, i: nat, j: nat)
    requires Mirrors(xs, kept) && i < j < |kept|
    ensures InOrder(xs, kept, i, j)
  {
    var at := KeysInOrder(xs, i, j);
  }

  /** The result by its figures: one offer for every key of the list, the keys in the order they first
      appeared, each with the first of its offers that have the most seats and then the shortest trip. */
  lemma KeptInFigures(xs: seq<Offer>, kept: seq<Offer>)
    requires kept == Dedupe(xs)
    ensures forall x :: x in xs ==> HasKey(kept, x.key)
    ensures forall i :: 0 <= i < |kept| ==> IsTheBest(xs, kept[i])
    ensures forall i, j :: 0 <= i < j < |kept| ==> InOrder(xs, kept, i, j)
  {
    DedupeIsDeduped(xs);
    forall x | x in xs ensures HasKey(kept, x.key) {
      KeptHasKey(xs, kept, x);
    }
    forall i | 0 <= i < |kept| ensures IsTheBest(xs, kept[i]) {
      KeptIsTheBest(xs, kept, i);
    }
    forall i, j | 0 <= i < j < |kept| ensures InOrder(xs, kept, i, j) {
      KeptInOrder(xs, kept, i, j);
    }
  }

  // ---- Replays ----

  lemma {:induction false} FoldSplits(kept: seq<Offer>, xs: seq<Offer>, ys: seq<Offer>)
    ensures FoldFrom(kept, xs + ys) == FoldFrom(FoldFrom(kept, xs), ys)
  {
    if ys == [] {
      assert xs + ys == xs;
    } else {
      FoldSplits(kept, xs, ys[..|ys| - 1]);
      assert (xs + ys)[..|xs + ys| - 1] == xs + ys[..|ys| - 1];
    }
  }

  /** A list with one offer per key is left as it is. */
  lemma {:induction false} DistinctIsKept(xs: seq<Offer>)
    requires Distinct(xs)
    ensures Dedupe(xs) == xs
  {
    if xs != [] {
      DistinctIsKept(xs[..|xs| - 1]);
      InsertNew(xs[..|xs| - 1], xs[|xs| - 1]);
    }
  }

  /** Deduplicating what was deduplicated, together with what came since, loses and moves nothing. */
  lemma DedupeInSteps(xs: seq<Offer>, ys: seq<Offer>)
    ensures Dedupe(Dedupe(xs) + ys) == Dedupe(xs + ys)
  {
    DedupeIsDeduped(xs);
    DistinctIsKept(Dedupe(xs));
    FoldSplits([], xs, ys);
    FoldSplits([], Dedupe(xs), ys);
  }

  /** Offers already seen change nothing, in whatever order and however often they come again. */
  lemma {:induction false} ReplayChangesNothing(xs: seq<Offer>, replayed: seq<Offer>)
    requires forall o :: o in replayed ==> o in xs
    ensures Dedupe(xs + replayed) == Dedupe(xs)
  {
    FoldSplits([], xs, replayed);
    if replayed != [] {
      var front, last := replayed[..|replayed| - 1], replayed[|replayed| - 1];
      ReplayChangesNothing(xs, front);
      FoldSplits([], xs, front);
      DedupeIsDeduped(xs);
      var best := BestIsBest(xs, last.key);
      KeysAppear(xs);
      assert last in replayed;
      var at :| 0 <= at < |FirstKeys(xs)| && FirstKeys(xs)[at] == last.key;
      InsertKnown(Dedupe(xs), last, at);
    }
  }

  /** The offers of the second list that the first does not have. */
  function Unseen(first: seq<Offer>, second: seq<Offer>): seq<Offer> {
    if second == [] then []
    else
      var before, last := Unseen(first, second[..|second| - 1]), second[|second| - 1];
      if last in first then before else before + [last]
  }

  /** One more offer is one more insertion. */
  lemma DedupeOneMore(xs: seq<Offer>, o: Offer)
    ensures Dedupe(xs + [o]) == Insert(Dedupe(xs), o)
  {
    assert (xs + [o])[..|xs|] == xs;
  }

  /** A search repeated after its token expired, its answers in whatever order: the list is that of one
      pass over the offers as they first arrived. */
  lemma {:induction false} RetryIsOnePass(first: seq<Offer>, second: seq<Offer>)
    ensures Dedupe(first + second) == Dedupe(first + Unseen(first, second))
  {
    if second == [] {
      assert first + second == first + Unseen(first, second);
    } else {
      var front, last := second[..|second| - 1], second[|second| - 1];
      var known := first + Unseen(first, front);
      RetryIsOnePass(first, front);
      DedupeOneMore(first + front, last);
      DedupeOneMore(known, last);
      assert first + second == (first + front) + [last];
      if last in first {
        ReplayChangesNothing(known, [last]);
      } else {
        assert first + Unseen(first, second) == known + [last];
      }
    }
  }

  /** In any other order the retry still keeps the same keys, each with an offer of as many seats and as
      short a trip. */
  lemma RetryInAnyOrder(first: seq<Offer>, second: seq<Offer>, key: nat)
    requires forall o :: o in first ==> o in second
    ensures key in FirstKeys(first + second) <==> key in FirstKeys(second)
    ensures key in FirstKeys(second) ==>
      var a, b := BestOf(first + second, key), BestOf(second, key);
      && a.Some? && b.Some? && a.value.seats.GetOr(0) == b.value.seats.GetOr(0)
      && a.value.minutes == b.value.minutes
  {
    var i := BestIsBest(first + second, key);
    var j := BestIsBest(second, key);
    KeysAppear(first + second);
    KeysAppear(second);
    assert forall o :: o in first + second <==> o in second;
  }

  function Concat(batches: seq<seq<Offer>>): seq<Offer> {
    if batches == [] then [] else Concat(batches[..|batches| - 1]) + batches[|batches| - 1]
  }

  // ---- Showing offers as they arrive ----

  /** Nothing shown moves or goes: each key keeps its place, with the same offer or one with more seats, or
      with as many and a shorter trip. */
  ghost predicate Improves(shown: seq<Offer>, later: seq<Offer>) {
    |shown| <= |later| && forall i :: 0 <= i < |shown| ==> Upgraded(shown[i], later[i])
  }

  ghost predicate Upgraded(o: Offer, later: Offer) {
    && later.key == o.key
    && (later == o || later.seats.GetOr(0) > o.seats.GetOr(0)
        || (later.seats.GetOr(0) == o.seats.GetOr(0) && later.minutes < o.minutes))
  }

  lemma InsertImproves(xs: seq<Offer>, o: Offer)
    ensures Improves(Dedupe(xs), Insert(Dedupe(xs), o))
  {
    DedupeIsDeduped(xs);
    if o.key in FirstKeys(xs) {
      var at := LinedKnown(FirstKeys(xs), Dedupe(xs), o);
    } else {
      LinedNew(FirstKeys(xs), Dedupe(xs), o);
    }
  }

  lemma {:induction false} MoreOffersImprove(xs: seq<Offer>, ys: seq<Offer>)
    ensures Improves(Dedupe(xs), Dedupe(xs + ys))
  {
    if ys == [] {
      assert xs + ys == xs;
    } else {
      var front, last := ys[..|ys| - 1], ys[|ys| - 1];
      MoreOffersImprove(xs, front);
      InsertImproves(xs + front, last);
      FoldSplits([], xs + front, [last]);
      assert xs + ys == (xs + front) + [last];
      assert FoldFrom(Dedupe(xs + front), [last]) == Insert(Dedupe(xs + front), last) by { assert [last][..0] == []; }
    }
  }

  lemma {:induction false} ConcatSplits(batches: seq<seq<Offer>>, j: nat) returns (more: seq<Offer>)
    requires j <= |batches|
    ensures Concat(batches) == Concat(batches[..j]) + more
    decreases |batches|
  {
    if j == |batches| {
      more := [];
      assert batches[..j] == batches;
    } else {
      var front := batches[..|batches| - 1];
      var before := ConcatSplits(front, j);
      assert front[..j] == batches[..j];
      more := before + batches[|batches| - 1];
    }
  }

  /** The list after some answers, and the list after more of them. */
  lemma LaterListsImprove(batches: seq<seq<Offer>>, j: nat, k: nat)
    requires j <= k <= |batches|
    ensures Improves(Dedupe(Concat(batches[..j])), Dedupe(Concat(batches[..k])))
  {
    var more := ConcatSplits(batches[..k], j);
    assert batches[..k][..j] == batches[..j];
    MoreOffersImprove(Concat(batches[..j]), more);
  }

  /**
   Every answer's offers join the list of all mapped so far, which is deduplicated anew and shown; an
   answer that failed brings none. What is shown only ever grows and improves, up to the final list,
   which is that of one pass over everything mapped.
   */
  method ResolveProgressive(batches: seq<seq<Offer>>) returns (published: seq<seq<Offer>>, offers: seq<Offer>)
    ensures |published| == |batches| && offers == Dedupe(Concat(batches))
    ensures forall k :: 0 <= k < |published| ==> published[k] == Dedupe(Concat(batches[..k + 1]))
    ensures forall j, k :: 0 <= j <= k < |published| ==> Improves(published[j], published[k])
    ensures forall j :: 0 <= j < |published| ==> Improves(published[j], offers)
  {
    var mapped: seq<Offer> := [];
    published := [];
    var i := 0;
    while i < |batches|
      invariant i <= |batches| && |published| == i && mapped == Concat(batches[..i])
      invariant forall k :: 0 <= k < i ==> published[k] == Dedupe(Concat(batches[..k + 1]))
    {
      assert batches[..i + 1][..i] == batches[..i];
      mapped := mapped + batches[i];
      var shown := DedupeOffers(mapped);
      published := published + [shown];
      i := i + 1;
    }
    assert batches[..i] == batches;
    offers := DedupeOffers(mapped);
    forall j, k | 0 <= j <= k < |published| ensures Improves(published[j], published[k]) {
      LaterListsImprove(batches, j + 1, k + 1);
    }
    forall j | 0 <= j < |published| ensures Improves(published[j], offers) {
      LaterListsImprove(batches, j + 1, |batches|);
    }
  }
}
