/**
 Schedule variants: one offer per choice of a flight on each journey, cut at a limit. A choice is the
 index of one option per journey. Both providers' loops produce the first choices of the lexicographic
 order, and say so when there were more.
 */
module OfferVariants {

  // ---- Every choice, in order ----

  /** One prefix with each of the first `m` options. */
  function Row(prefix: seq<nat>, m: nat): (row: seq<seq<nat>>)
    ensures |row| == m && forall b :: 0 <= b < m ==> row[b] == prefix + [b]
  {
    seq(m, b requires 0 <= b < m => prefix + [b])
  }

  /** Every prefix with every option, the option moving fastest. */
  function Cross(prefixes: seq<seq<nat>>, m: nat): seq<seq<nat>> {
    if prefixes == [] then []
    else Cross(prefixes[..|prefixes| - 1], m) + Row(prefixes[|prefixes| - 1], m)
  }

  /** All choices from lists of these sizes. */
  function Choices(sizes: seq<nat>): seq<seq<nat>> {
    if sizes == [] then [[]] else Cross(Choices(sizes[..|sizes| - 1]), sizes[|sizes| - 1])
  }

  function First<T>(all: seq<T>, limit: nat): seq<T> {
    if |all| > limit then all[..limit] else all
  }

  function Product(sizes: seq<nat>): nat {
    if sizes == [] then 1 else Product(sizes[..|sizes| - 1]) * sizes[|sizes| - 1]
  }

  predicate NonEmpty(sizes: seq<nat>) {
    forall i :: 0 <= i < |sizes| ==> sizes[i] > 0
  }

  // ---- The list of choices is what it should be ----

  predicate IsChoice(sizes: seq<nat>, d: seq<nat>) {
    |d| == |sizes| && forall i :: 0 <= i < |d| ==> d[i] < sizes[i]
  }

  ghost predicate LexLess(a: seq<nat>, b: seq<nat>) {
    exists i :: 0 <= i < |a| && i < |b| && a[i] < b[i] && a[..i] == b[..i]
  }

  ghost predicate InOrder(s: seq<seq<nat>>) {
    forall i, j :: 0 <= i < j < |s| ==> LexLess(s[i], s[j])
  }

  lemma {:induction false} CrossHolds(prefixes: seq<seq<nat>>, m: nat, d: seq<nat>)
    ensures d in Cross(prefixes, m) <==> d != [] && d[..|d| - 1] in prefixes && d[|d| - 1] < m
  {
    if prefixes != [] {
      var front, last := prefixes[..|prefixes| - 1], prefixes[|prefixes| - 1];
      CrossHolds(front, m, d);
      assert prefixes == front + [last];
      if d != [] && d[..|d| - 1] == last && d[|d| - 1] < m {
        assert Row(last, m)[d[|d| - 1]] == d;
      }
      assert d in Row(last, m) ==> d != [] && d[..|d| - 1] == last && d[|d| - 1] < m;
    }
  }

  lemma ChoiceByLast(sizes: seq<nat>, d: seq<nat>)
    requires sizes != []
    ensures IsChoice(sizes, d) <==>
      d != [] && IsChoice(sizes[..|sizes| - 1], d[..|d| - 1]) && d[|d| - 1] < sizes[|sizes| - 1]
  {
    if d != [] && IsChoice(sizes[..|sizes| - 1], d[..|d| - 1]) && d[|d| - 1] < sizes[|sizes| - 1] {
      forall i | 0 <= i < |d| ensures d[i] < sizes[i] {
        assert i < |d| - 1 ==> d[..|d| - 1][i] == d[i];
      }
    }
  }

  /** A list of numbers is among the choices exactly when it chooses from every list. */
  lemma {:induction false} ChoicesAreComplete(sizes: seq<nat>, d: seq<nat>)
    ensures d in Choices(sizes) <==> IsChoice(sizes, d)
  {
    if sizes != [] {
      var n := |sizes| - 1;
      CrossHolds(Choices(sizes[..n]), sizes[n], d);
      ChoiceByLast(sizes, d);
      if d != [] {
        ChoicesAreComplete(sizes[..n], d[..|d| - 1]);
      }
    }
  }

  lemma ExtendsLess(a: seq<nat>, b: seq<nat>, x: nat, y: nat)
    requires LexLess(a, b) || (a == b && x < y)
    ensures LexLess(a + [x], b + [y])
  {
    if a == b && x < y {
      assert (a + [x])[..|a|] == (b + [y])[..|a|];
    } else {
      var i :| 0 <= i < |a| && i < |b| && a[i] < b[i] && a[..i] == b[..i];
      assert (a + [x])[..i] == a[..i] && (b + [y])[..i] == b[..i];
    }
  }

  lemma PrefixOf(prefixes: seq<seq<nat>>, m: nat, d: seq<nat>) returns (p: nat)
    requires d in Cross(prefixes, m)
    ensures p < |prefixes| && d != [] && d == prefixes[p] + [d[|d| - 1]]
  {
    CrossHolds(prefixes, m, d);
    p :| 0 <= p < |prefixes| && prefixes[p] == d[..|d| - 1];
  }

  lemma {:induction false} CrossInOrder(prefixes: seq<seq<nat>>, m: nat)
    requires InOrder(prefixes)
    ensures InOrder(Cross(prefixes, m))
  {
    if prefixes != [] {
      var front, last := prefixes[..|prefixes| - 1], prefixes[|prefixes| - 1];
      CrossInOrder(front, m);
      var head, row := Cross(front, m), Row(last, m);
      forall i, j | 0 <= i < j < |head + row| ensures LexLess((head + row)[i], (head + row)[j]) {
        if i >= |head| {
          ExtendsLess(last, last, i - |head|, j - |head|);
        } else if j >= |head| {
          var d := head[i];
          var p := PrefixOf(front, m, d);
          assert LexLess(prefixes[p], last);
          ExtendsLess(front[p], last, d[|d| - 1], j - |head|);
        }
      }
    }
  }

  /** The choices are listed in lexicographic order, so none twice. */
  lemma {:induction false} ChoicesInOrder(sizes: seq<nat>)
    ensures InOrder(Choices(sizes))
  {
    if sizes != [] {
      ChoicesInOrder(sizes[..|sizes| - 1]);
      CrossInOrder(Choices(sizes[..|sizes| - 1]), sizes[|sizes| - 1]);
    }
  }

  lemma {:induction false} CrossSize(prefixes: seq<seq<nat>>, m: nat)
    ensures |Cross(prefixes, m)| == |prefixes| * m
  {
    if prefixes != [] {
      CrossSize(prefixes[..|prefixes| - 1], m);
      assert |prefixes| * m == (|prefixes| - 1) * m + m;
    }
  }

  lemma {:induction false} ChoicesAreCounted(sizes: seq<nat>)
    ensures |Choices(sizes)| == Product(sizes)
  {
    if sizes != [] {
      ChoicesAreCounted(sizes[..|sizes| - 1]);
      CrossSize(Choices(sizes[..|sizes| - 1]), sizes[|sizes| - 1]);
    }
  }

  // ---- Costamar: stage by stage ----

  lemma {:induction false} CrossSplits(prefixes: seq<seq<nat>>, more: seq<seq<nat>>, m: nat)
    ensures Cross(prefixes + more, m) == Cross(prefixes, m) + Cross(more, m)
  {
    if more == [] {
      assert prefixes + more == prefixes;
    } else {
      var front := more[..|more| - 1];
      CrossSplits(prefixes, front, m);
      assert (prefixes + more)[..|prefixes + more| - 1] == prefixes + front;
      var row := Row(more[|more| - 1], m);
      assert (Cross(prefixes, m) + Cross(front, m)) + row == Cross(prefixes, m) + (Cross(front, m) + row);
    }
  }

  lemma {:induction false} CrossNotShorter(prefixes: seq<seq<nat>>, m: nat)
    requires m > 0
    ensures |Cross(prefixes, m)| >= |prefixes|
  {
    if prefixes != [] {
      CrossNotShorter(prefixes[..|prefixes| - 1], m);
    }
  }

  /** Cutting the prefixes first loses nothing that the cut after the stage would keep. */
  lemma CutBeforeStage(all: seq<seq<nat>>, m: nat, limit: nat)
    requires m > 0
    ensures First(Cross(First(all, limit), m), limit) == First(Cross(all, m), limit)
  {
    if |all| > limit {
      assert all == all[..limit] + all[limit..];
      CrossSplits(all[..limit], all[limit..], m);
      CrossNotShorter(all[..limit], m);
    }
  }

  lemma RowByRow(prefixes: seq<seq<nat>>, i: nat, m: nat)
    requires i < |prefixes|
    ensures Cross(prefixes[..i + 1], m) == Cross(prefixes[..i], m) + Row(prefixes[i], m)
    ensures Cross(prefixes[..i + 1], m) <= Cross(prefixes, m)
  {
    assert prefixes[..i + 1][..i] == prefixes[..i];
    assert prefixes == prefixes[..i + 1] + prefixes[i + 1..];
    CrossSplits(prefixes[..i + 1], prefixes[i + 1..], m);
  }

  /** The inner loop: one prefix with every option, until the limit. */
  method PushRow(before: seq<seq<nat>>, prefix: seq<nat>, m: nat, limit: nat) returns (next: seq<seq<nat>>)
    requires |before| < limit
    ensures next == First(before + Row(prefix, m), limit)
  {
    next := before;
    ghost var row := Row(prefix, m);
    var j := 0;
    while j < m && |next| < limit
      invariant j <= m && |next| <= limit && next == before + row[..j]
    {
      next := next + [prefix + [j]];
      j := j + 1;
    }
    assert row[..m] == row;
    assert (before + row)[..|next|] == next;
  }

  /** One stage: every prefix with every option, in order, stopping at the limit. */
  method ExpandStage(prefixes: seq<seq<nat>>, m: nat, limit: nat) returns (next: seq<seq<nat>>)
    requires limit >= 1
    ensures next == First(Cross(prefixes, m), limit)
  {
    next := [];
    var i := 0;
    while i < |prefixes| && |next| < limit
      invariant i <= |prefixes| && next <= Cross(prefixes, m) && |next| <= limit
      invariant |next| < limit ==> next == Cross(prefixes[..i], m)
    {
      RowByRow(prefixes, i, m);
      next := PushRow(next, prefixes[i], m, limit);
      i := i + 1;
    }
    assert prefixes[..|prefixes|] == prefixes;
  }

  method ExpandAll(sizes: seq<nat>, limit: nat) returns (variants: seq<seq<nat>>)
    requires limit >= 1 && NonEmpty(sizes)
    ensures variants == First(Choices(sizes), limit)
  {
    variants := [[]];
    var i := 0;
    while i < |sizes|
      invariant i <= |sizes| && variants == First(Choices(sizes[..i]), limit)
    {
      CutBeforeStage(Choices(sizes[..i]), sizes[i], limit);
      assert sizes[..i + 1][..i] == sizes[..i];
      variants := ExpandStage(variants, sizes[i], limit);
      i := i + 1;
    }
    assert sizes[..i] == sizes;
  }

  lemma Grows(a: nat, b: nat)
    requires b >= 1
    ensures a * b >= a
  {
  }

  /** Dividing the limit asks the same as multiplying the product. */
  lemma DivisionTest(limit: nat, product: nat, size: nat)
    requires product > 0
    ensures size > limit / product <==> product * size > limit
  {
    var q := limit / product;
    assert q * product <= limit < q * product + product;
    if size > q {
      Grows(product, size - q);
      assert product * size == product * q + product * (size - q);
    } else {
      assert product * size == product * q - product * (q - size);
    }
  }

  /** Another non-empty list never makes the product smaller. */
  lemma {:induction false} PrefixProduct(sizes: seq<nat>, n: nat)
    requires NonEmpty(sizes) && n <= |sizes|
    ensures Product(sizes[..n]) <= Product(sizes)
    decreases |sizes| - n
  {
    if n < |sizes| {
      PrefixProduct(sizes, n + 1);
      assert sizes[..n + 1][..n] == sizes[..n];
      Grows(Product(sizes[..n]), sizes[n]);
    } else {
      assert sizes[..n] == sizes;
    }
  }

  /** The overflow-free test: no product beyond the limit is ever computed. */
  method ProductExceedsLimit(sizes: seq<nat>, limit: nat) returns (exceeds: bool)
    requires NonEmpty(sizes) && limit >= 1
    ensures exceeds <==> Product(sizes) > limit
  {
    var product := 1;
    var i := 0;
    while i < |sizes|
      invariant i <= |sizes| && product == Product(sizes[..i]) && 1 <= product <= limit
    {
      assert sizes[..i + 1][..i] == sizes[..i];
      DivisionTest(limit, product, sizes[i]);
      if sizes[i] > limit / product {
        PrefixProduct(sizes, i + 1);
        return true;
      }
      Grows(product, sizes[i]);
      product := product * sizes[i];
      i := i + 1;
    }
    assert sizes[..i] == sizes;
    return false;
  }

  datatype Expansion = Unchanged | Variants(variants: seq<seq<nat>>, truncated: bool)

  /**
   The offers of one recommendation, from the number of flights on each of its journeys. It stays as it
   is when a journey is missing, when one has no flight, and when there is nothing to choose; otherwise
   it becomes the first choices, and says so exactly when some were left out.
   */
  method ExpandFlightOptions(journeys: seq<nat>, journeyCount: nat, limit: nat) returns (r: Expansion)
    requires limit >= 1
    ensures r.Unchanged? <==>
      || |journeys| < journeyCount
      || (exists i :: 0 <= i < journeyCount && journeys[i] == 0)
      || (forall i :: 0 <= i < journeyCount ==> journeys[i] == 1)
    ensures r.Variants? ==>
      && r.variants == First(Choices(journeys[..journeyCount]), limit)
      && (r.truncated <==> |Choices(journeys[..journeyCount])| > |r.variants|)
  {
    if |journeys| < journeyCount {
      return Unchanged;
    }
    var relevant := journeys[..journeyCount];
    assert forall i :: 0 <= i < journeyCount ==> relevant[i] == journeys[i];
    if exists i :: 0 <= i < |relevant| && relevant[i] == 0 {
      return Unchanged;
    }
    if forall i :: 0 <= i < |relevant| ==> relevant[i] == 1 {
      return Unchanged;
    }
    var truncated := ProductExceedsLimit(relevant, limit);
    var variants := ExpandAll(relevant, limit);
    ChoicesAreCounted(relevant);
    r := Variants(First(variants, limit), truncated);
  }

  // ---- Agil: two lists at once ----

  /** Outbound with inbound, in order, stopping at the limit; either list may be empty. The result and
      the flag are those of the staged expansion. */
  method EnumeratePairs(outbound: nat, inbound: nat, limit: nat) returns (pairs: seq<seq<nat>>, truncated: bool)
    requires limit >= 1
    ensures pairs == First(Choices([outbound, inbound]), limit)
    ensures truncated <==> |Choices([outbound, inbound])| > |pairs|
  {
    truncated := outbound * inbound > limit;
    ghost var starts := TwoLists([outbound, inbound], outbound, inbound);
    pairs := PairLoops(outbound, inbound, limit, starts);
  }

  method PairLoops(outbound: nat, inbound: nat, limit: nat, ghost starts: seq<seq<nat>>) returns (pairs: seq<seq<nat>>)
    requires limit >= 1 && |starts| == outbound && forall i :: 0 <= i < outbound ==> starts[i] == [i]
    ensures pairs == First(Cross(starts, inbound), limit)
  {
    pairs := [];
    var i := 0;
    while i < outbound && |pairs| < limit
      invariant i <= outbound && pairs <= Cross(starts, inbound) && |pairs| <= limit
      invariant |pairs| < limit ==> pairs == Cross(starts[..i], inbound)
    {
      RowByRow(starts, i, inbound);
      pairs := PushRow(pairs, [i], inbound, limit);
      i := i + 1;
    }
    assert starts[..outbound] == starts;
  }

  /** With two lists the prefixes are the options of the first. */
  lemma TwoLists(sizes: seq<nat>, n: nat, m: nat) returns (starts: seq<seq<nat>>)
    requires sizes == [n, m]
    ensures |starts| == n && forall i :: 0 <= i < n ==> starts[i] == [i]
    ensures Choices(sizes) == Cross(starts, m) && |Choices(sizes)| == n * m
  {
    starts := Row([], n);
    var none: seq<seq<nat>> := [[]];
    assert sizes[..1] == [n] && [n][..0] == [];
    assert none[..0] == [] && Cross(none, n) == starts;
    assert Choices(sizes[..1]) == starts;
    CrossSize(starts, m);
  }
}
