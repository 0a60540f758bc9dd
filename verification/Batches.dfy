/**
 The two ways of cutting a component's duties into batches: dealing a sorted list round-robin,
 and greedy calendar windows.
 */
module Batches {
  import opened Domain
  import opened Sorting
  import opened Sums
  import opened Arithmetic

  ghost predicate NoRepeats(s: seq<nat>) {
    forall i, j | 0 <= i < j < |s| :: s[i] != s[j]
  }

  /** Every element of s lies in exactly one batch, once. */
  ghost predicate Partitions(batches: seq<seq<nat>>, s: seq<nat>) {
    && (forall x: nat :: x in s <==> exists j: nat :: j < |batches| && x in batches[j])
    && (forall j: nat | j < |batches| :: NoRepeats(batches[j]))
    && (forall j: nat, k: nat, x: nat | j < |batches| && k < |batches| && x in batches[j] && x in batches[k] :: j == k)
  }

  // ----- dealing round-robin -----

  /** The elements of s at positions j, j + n, j + 2n, ... */
  function Dealt(s: seq<nat>, n: nat, j: nat): seq<nat>
    requires n > 0
  {
    if s == [] then []
    else
      var last := |s| - 1;
      Dealt(s[..last], n, j) + if last % n == j then [s[last]] else []
  }

  lemma SmallDivision(x: nat, n: nat)
    requires n > 0 && x < 2 * n
    ensures x / n == if x < n then 0 else 1
  {
    DivIs(x, n, if x < n then 0 else 1);
  }

  lemma StepDivision(p: nat, n: nat, j: nat)
    requires j < n
    ensures (p + 1 + n - 1 - j) / n == (p + n - 1 - j) / n + if p % n == j then 1 else 0
  {
    var q, r := p / n, p % n;
    assert p == q * n + r;
    DivOfMultiple(q, n, r + n - 1 - j);
    DivOfMultiple(q, n, r + n - j);
    SmallDivision(r + n - 1 - j, n);
    SmallDivision(r + n - j, n);
  }

  /** How many cards each hand receives. */
  lemma {:induction false} DealtSize(s: seq<nat>, n: nat, j: nat)
    requires j < n
    ensures |Dealt(s, n, j)| == (|s| + n - 1 - j) / n
  {
    if s == [] {
      SmallDivision(n - 1 - j, n);
    } else {
      var last: nat := |s| - 1;
      DealtSize(s[..last], n, j);
      StepDivision(last, n, j);
    }
  }

  /** The card that hand j receives as its k-th. */
  lemma CardNumber(p: nat, n: nat, j: nat, k: nat)
    requires j < n && p % n == j && k == (p + n - 1 - j) / n
    ensures p == j + k * n
  {
    var q := p / n;
    assert p == q * n + j;
    DivOfMultiple(q, n, n - 1);
    SmallDivision(n - 1, n);
    assert p + n - 1 - j == q * n + (n - 1);
  }

  /** The k-th card of hand j is card j + k * n of the sorted deck: hands interleave the whole deck. */
  lemma {:induction false} DealtAt(s: seq<nat>, n: nat, j: nat, k: nat)
    requires j < n && k < |Dealt(s, n, j)|
    ensures j + k * n < |s| && Dealt(s, n, j)[k] == s[j + k * n]
  {
    var last: nat := |s| - 1;
    var t := s[..last];
    if k < |Dealt(t, n, j)| {
      DealtAt(t, n, j, k);
      assert t[j + k * n] == s[j + k * n];
    } else {
      DealtSize(t, n, j);
      CardNumber(last, n, j, k);
    }
  }

  lemma {:induction false} DealtMembers(s: seq<nat>, n: nat, j: nat)
    requires n > 0
    ensures forall x: nat | x in Dealt(s, n, j) :: exists p: nat :: p < |s| && p % n == j && s[p] == x
    ensures forall p: nat | p < |s| && p % n == j :: s[p] in Dealt(s, n, j)
  {
    if s != [] {
      var last: nat := |s| - 1;
      var t := s[..last];
      DealtMembers(t, n, j);
      forall x: nat | x in Dealt(s, n, j) ensures exists p: nat :: p < |s| && p % n == j && s[p] == x {
        if x in Dealt(t, n, j) {
          var p: nat :| p < |t| && p % n == j && t[p] == x;
          assert s[p] == x;
        } else {
          assert s[last] == x;
        }
      }
      forall p: nat | p < |s| && p % n == j ensures s[p] in Dealt(s, n, j) {
        if p < last {
          assert t[p] == s[p];
        }
      }
    }
  }

  lemma {:induction false} DealtNoRepeats(s: seq<nat>, n: nat, j: nat)
    requires n > 0 && NoRepeats(s)
    ensures NoRepeats(Dealt(s, n, j))
  {
    if s != [] {
      var last: nat := |s| - 1;
      var t := s[..last];
      DealtNoRepeats(t, n, j);
      DealtMembers(t, n, j);
      assert s[last] !in Dealt(t, n, j) by {
        forall x: nat | x in Dealt(t, n, j) ensures x != s[last] {
          var p: nat :| p < |t| && p % n == j && t[p] == x;
          assert s[p] != s[last];
        }
      }
    }
  }

  lemma SamePosition(s: seq<nat>, p: nat, q: nat)
    requires NoRepeats(s) && p < |s| && q < |s| && s[p] == s[q]
    ensures p == q
  {
  }

  lemma DealtPartitions(s: seq<nat>, n: nat, batches: seq<seq<nat>>)
    requires n > 0 && NoRepeats(s)
    requires |batches| == n && forall j: nat | j < n :: batches[j] == Dealt(s, n, j)
    ensures Partitions(batches, s)
  {
    forall x: nat ensures x in s <==> exists j: nat :: j < |batches| && x in batches[j] {
      if x in s {
        var p: nat :| p < |s| && s[p] == x;
        DealtMembers(s, n, p % n);
        assert x in batches[p % n];
      }
      if j: nat :| j < |batches| && x in batches[j] {
        DealtMembers(s, n, j);
      }
    }
    forall j: nat | j < |batches| ensures NoRepeats(batches[j]) {
      DealtNoRepeats(s, n, j);
    }
    forall j: nat, k: nat, x: nat | j < |batches| && k < |batches| && x in batches[j] && x in batches[k]
      ensures j == k
    {
      DealtMembers(s, n, j);
      DealtMembers(s, n, k);
      var p: nat :| p < |s| && p % n == j && s[p] == x;
      var q: nat :| q < |s| && q % n == k && s[q] == x;
      SamePosition(s, p, q);
    }
  }

  ghost predicate AtPosition(s: seq<nat>, p: nat, x: nat) {
    p < |s| && s[p] == x
  }

  /** The k-th element of batch j is element j + k * n of the sorted list. */
  ghost predicate RoundRobin(batches: seq<seq<nat>>, sorted: seq<nat>) {
    forall j: nat, k: nat | j < |batches| && k < |batches[j]| ::
      AtPosition(sorted, j + k * |batches|, batches[j][k])
  }

  ghost predicate Sized(batches: seq<seq<nat>>, target: nat) {
    && (forall j: nat | j < |batches| :: 0 < |batches[j]| <= target)
    && (forall j: nat, k: nat | j < |batches| && k < |batches| :: |batches[j]| <= |batches[k]| + 1)
  }

  /** By start date, then higher score first, then duty type. */
  function DealingOrder(duties: seq<Duty>): (nat, nat) -> bool {
    (a: nat, b: nat) =>
      if a < |duties| && b < |duties| then
        var d, e := duties[a], duties[b];
        d.start < e.start
        || (d.start == e.start
            && (d.scorePerDay > e.scorePerDay || (d.scorePerDay == e.scorePerDay && d.dutyType <= e.dutyType)))
      else b >= |duties|
  }

  lemma DealingOrderTotal(duties: seq<Duty>)
    ensures TotalPreorder(DealingOrder(duties))
  {
  }

  /** Earlier start first, then higher daily score, then lower type; equal ones stay as they were listed. */
  ghost predicate InDealingOrder(duties: seq<Duty>, idxs: seq<nat>, deck: seq<nat>) {
    forall i, j | 0 <= i < j < |deck| && deck[i] < |duties| && deck[j] < |duties| ::
      DealtBefore(duties, deck[i], deck[j], Increasing(idxs))
  }

  ghost predicate DealtBefore(duties: seq<Duty>, a: nat, b: nat, listed: bool)
    requires a < |duties| && b < |duties|
  {
    var d, e := duties[a], duties[b];
    || d.start < e.start
    || (d.start == e.start && d.scorePerDay > e.scorePerDay)
    || (d.start == e.start && d.scorePerDay == e.scorePerDay && d.dutyType < e.dutyType)
    || (d.start == e.start && d.scorePerDay == e.scorePerDay && d.dutyType == e.dutyType && (listed ==> a < b))
  }

  lemma DeckInOrder(duties: seq<Duty>, idxs: seq<nat>)
    requires NoRepeats(idxs)
    ensures InDealingOrder(duties, idxs, SortBy(idxs, DealingOrder(duties)))
  {
    var le := DealingOrder(duties);
    var deck := SortBy(idxs, le);
    DealingOrderTotal(duties);
    SortByOrdered(idxs, le);
    if Increasing(idxs) {
      SortByStable(idxs, le);
    }
    forall i, j | 0 <= i < j < |deck| && deck[i] < |duties| && deck[j] < |duties|
      ensures DealtBefore(duties, deck[i], deck[j], Increasing(idxs))
    {
      assert le(deck[i], deck[j]);
      if Increasing(idxs) && le(deck[j], deck[i]) {
        assert deck[i] < deck[j];
      }
    }
  }

  lemma CeilingBounds(len: nat, target: nat)
    requires target > 0 && len > 0
    ensures 1 <= (len + target - 1) / target <= len
    ensures (len + target - 1) / target * target >= len
  {
    var n := (len + target - 1) / target;
    DivBounds(len + target - 1, target);
    assert (n + 1) * target == n * target + target;
    DivAtLeast(len + target - 1, target, 1);
    MulMonotone(1, target, len);
    assert (len + 1) * target == target * len + target;
    DivAtMost(len + target - 1, target, len);
  }

  /**
   Sorted duties dealt into as few hands as the target size allows: every duty once, no hand
   empty or above the target, sizes within one of each other.
   */
  method InterleavedDutyBatches(idxs: seq<nat>, duties: seq<Duty>, target: nat) returns (batches: seq<seq<nat>>)
    requires target > 0 && NoRepeats(idxs)
    ensures Partitions(batches, idxs)
    ensures Sized(batches, target)
    ensures idxs != [] ==> |batches| == (|idxs| + target - 1) / target
    ensures var deck := SortBy(idxs, DealingOrder(duties));
            RoundRobin(batches, deck) && InDealingOrder(duties, idxs, deck) && multiset(deck) == multiset(idxs)
  {
    DeckInOrder(duties, idxs);
    if idxs == [] {
      return [];
    }
    var sorted := SortBy(idxs, DealingOrder(duties));
    SortedDeck(idxs, sorted);
    batches := DealByTarget(sorted, target);
    SamePartition(batches, sorted, idxs);
  }

  method DealByTarget(sorted: seq<nat>, target: nat) returns (batches: seq<seq<nat>>)
    requires target > 0 && NoRepeats(sorted) && sorted != []
    ensures Partitions(batches, sorted) && Sized(batches, target) && RoundRobin(batches, sorted)
    ensures |batches| == (|sorted| + target - 1) / target
  {
    CeilingBounds(|sorted|, target);
    var n := (|sorted| + target - 1) / target;
    batches := Deal(sorted, n);
    DealtPartitions(sorted, n, batches);
    HandSizes(sorted, n, target, batches);
    DealtRoundRobin(sorted, n, batches);
  }

  lemma DealtRoundRobin(sorted: seq<nat>, n: nat, batches: seq<seq<nat>>)
    requires n > 0
    requires |batches| == n && forall j: nat | j < n :: batches[j] == Dealt(sorted, n, j)
    ensures RoundRobin(batches, sorted)
  {
    forall j: nat, k: nat | j < |batches| && k < |batches[j]|
      ensures AtPosition(sorted, j + k * |batches|, batches[j][k])
    {
      DealtAt(sorted, n, j, k);
    }
  }

  lemma SortedDeck(idxs: seq<nat>, sorted: seq<nat>)
    requires multiset(sorted) == multiset(idxs) && NoRepeats(idxs)
    ensures |sorted| == |idxs| && NoRepeats(sorted)
    ensures forall x: nat :: x in sorted <==> x in idxs
  {
    SameMembers(sorted, idxs);
    NoRepeatsPermuted(idxs, sorted);
  }

  method Deal(sorted: seq<nat>, n: nat) returns (batches: seq<seq<nat>>)
    requires n > 0
    ensures |batches| == n && forall j: nat | j < n :: batches[j] == Dealt(sorted, n, j)
  {
    batches := seq(n, _ => []);
    var i: nat := 0;
    while i < |sorted|
      invariant i <= |sorted| && |batches| == n
      invariant forall j: nat | j < n :: batches[j] == Dealt(sorted[..i], n, j)
    {
      assert sorted[..i + 1][..i] == sorted[..i];
      batches := batches[i % n := batches[i % n] + [sorted[i]]];
      i := i + 1;
    }
    assert sorted[..i] == sorted;
  }

  lemma SamePartition(batches: seq<seq<nat>>, s: seq<nat>, t: seq<nat>)
    requires Partitions(batches, s)
    requires forall x: nat :: x in s <==> x in t
    ensures Partitions(batches, t)
  {
  }

  lemma HandSizes(s: seq<nat>, n: nat, target: nat, batches: seq<seq<nat>>)
    requires 0 < n <= |s| && n * target >= |s|
    requires |batches| == n && forall j: nat | j < n :: batches[j] == Dealt(s, n, j)
    ensures Sized(batches, target)
  {
    forall j: nat | j < n ensures |s| / n <= |batches[j]| <= |s| / n + 1 && 0 < |batches[j]| <= target {
      DealtSize(s, n, j);
      HandBounds(|s|, n, j, target);
    }
  }

  lemma HandBounds(len: nat, n: nat, j: nat, target: nat)
    requires j < n <= len && n * target >= len
    ensures len / n <= (len + n - 1 - j) / n <= len / n + 1
    ensures 0 < (len + n - 1 - j) / n <= target
  {
    DivMonotone(len, len + n - 1 - j, n);
    DivOfMultiple(1, n, len);
    DivMonotone(len + n - 1 - j, 1 * n + len, n);
    DivAtLeast(len + n - 1 - j, n, 1);
    assert (target + 1) * n == n * target + n;
    DivAtMost(len + n - 1 - j, n, target);
  }
}
