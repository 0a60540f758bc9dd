/**
 Graduated density relaxation: the ladder of (R, T) caps from the base to the ceilings, and
 the binary search for its lowest rung at which a component is fully covered.
 */
module Relaxation {
  import opened Domain

  datatype Rung = Level(R: int, T: int)

  datatype Ceilings = Ceilings(R: int, T: int)

  datatype RelaxLabel = Exhausted | RaisedR(r: int) | RaisedT(t: int)

  // ----- one relaxation step -----

  function Min(a: int, b: int): int {
    if a < b then a else b
  }

  function Max(a: int, b: int): int {
    if a < b then b else a
  }

  /** R first, then T, in hops of two up to the ceilings. */
  function NextRung(g: Rung, c: Ceilings): Rung {
    if g.R < c.R then g.(R := Min(c.R, g.R + 2))
    else if g.T < c.T then g.(T := Min(c.T, g.T + 2))
    else g
  }

  /** Steps left before both ceilings are reached. */
  function StepsLeft(g: Rung, c: Ceilings): nat {
    (Max(0, c.R - g.R) + 1) / 2 + (Max(0, c.T - g.T) + 1) / 2
  }

  predicate Lower(g: Rung, h: Rung) {
    g.R <= h.R && g.T <= h.T && g != h
  }

  /** The label tells which cap a step raises, and to what; R first. */
  predicate Describes(name: RelaxLabel, g: Rung, h: Rung, c: Ceilings) {
    match name
    case Exhausted => false
    case RaisedR(r) => h == Level(r, g.T) && g.R < r <= c.R
    case RaisedT(t) => h == Level(g.R, t) && g.T < t <= c.T && c.R <= g.R
  }

  /** The caps of one attempt, relaxed in place. */
  class CurrentCaps {
    var R: int
    var T: int
    const ceilings: Ceilings

    ghost function Here(): Rung
      reads this
    {
      Level(R, T)
    }

    constructor (base: Rung, c: Ceilings)
      ensures R == base.R && T == base.T && ceilings == c
    {
      R, T, ceilings := base.R, base.T, c;
    }

    /** Applies one step and names it; changes nothing when both ceilings are reached. */
    method RelaxStep() returns (name: RelaxLabel)
      modifies this
      ensures Here() == NextRung(old(Here()), ceilings)
      ensures name.Exhausted? <==> StepsLeft(old(Here()), ceilings) == 0
      ensures name.Exhausted? ==> Here() == old(Here())
      ensures !name.Exhausted? ==> Describes(name, old(Here()), Here(), ceilings)
    {
      if R < ceilings.R {
        R := Min(ceilings.R, R + 2);
        return RaisedR(R);
      }
      if T < ceilings.T {
        T := Min(ceilings.T, T + 2);
        return RaisedT(T);
      }
      return Exhausted;
    }
  }

  lemma StepClimbs(g: Rung, c: Ceilings)
    requires StepsLeft(g, c) > 0
    ensures StepsLeft(NextRung(g, c), c) == StepsLeft(g, c) - 1
    ensures Lower(g, NextRung(g, c))
    ensures NextRung(g, c).R <= Max(g.R, c.R) && NextRung(g, c).T <= Max(g.T, c.T)
    ensures g.T <= g.R && c.T <= c.R ==> NextRung(g, c).T <= NextRung(g, c).R
  {
    if g.R < c.R {
      assert (Max(0, c.R - Min(c.R, g.R + 2)) + 1) / 2 == (c.R - g.R + 1) / 2 - 1;
    } else {
      assert (Max(0, c.T - Min(c.T, g.T + 2)) + 1) / 2 == (c.T - g.T + 1) / 2 - 1;
    }
  }

  // ----- the ladder -----

  /** The rung after n steps. */
  function RungAfter(base: Rung, c: Ceilings, n: nat): Rung {
    if n == 0 then base else NextRung(RungAfter(base, c, n - 1), c)
  }

  lemma {:induction false} RungAfterSteps(base: Rung, c: Ceilings, n: nat)
    requires n <= StepsLeft(base, c)
    ensures StepsLeft(RungAfter(base, c, n), c) == StepsLeft(base, c) - n
    ensures RungAfter(base, c, n).R <= Max(base.R, c.R) && RungAfter(base, c, n).T <= Max(base.T, c.T)
    ensures base.T <= base.R && c.T <= c.R ==> RungAfter(base, c, n).T <= RungAfter(base, c, n).R
  {
    if n > 0 {
      RungAfterSteps(base, c, n - 1);
      StepClimbs(RungAfter(base, c, n - 1), c);
    }
  }

  /** Rungs rise strictly, from the base through every position. */
  lemma {:induction false} LadderRises(base: Rung, c: Ceilings, m: nat, n: nat)
    requires m < n <= StepsLeft(base, c)
    ensures Lower(RungAfter(base, c, m), RungAfter(base, c, n))
    decreases n
  {
    RungAfterSteps(base, c, n - 1);
    StepClimbs(RungAfter(base, c, n - 1), c);
    if m < n - 1 {
      LadderRises(base, c, m, n - 1);
    }
  }

  /** The last rung is the pair of ceilings, where they lie above the base. */
  lemma LadderReachesCeilings(base: Rung, c: Ceilings)
    ensures RungAfter(base, c, StepsLeft(base, c)) == Level(Max(base.R, c.R), Max(base.T, c.T))
  {
    var top := RungAfter(base, c, StepsLeft(base, c));
    RungAfterSteps(base, c, StepsLeft(base, c));
    ClimbingNeverDrops(base, c, StepsLeft(base, c));
    assert (Max(0, c.R - top.R) + 1) / 2 == 0 && (Max(0, c.T - top.T) + 1) / 2 == 0;
  }

  lemma {:induction false} ClimbingNeverDrops(base: Rung, c: Ceilings, n: nat)
    ensures base.R <= RungAfter(base, c, n).R && base.T <= RungAfter(base, c, n).T
  {
    if n > 0 {
      ClimbingNeverDrops(base, c, n - 1);
    }
  }

  datatype Position = Position(labels: seq<RelaxLabel>, rung: Rung)

  /** Each label names the cap that its step raised, and its new value. */
  ghost predicate Labelled(base: Rung, c: Ceilings, labels: seq<RelaxLabel>) {
    forall k: nat | k < |labels| :: Describes(labels[k], RungAfter(base, c, k), RungAfter(base, c, k + 1), c)
  }

  /** The first positions of the ladder; the labels so far are those of the last one. */
  ghost predicate Climbed(base: Rung, c: Ceilings, positions: seq<Position>, labels: seq<RelaxLabel>) {
    && |labels| == |positions|
    && (forall i | 0 <= i < |positions| ::
          positions[i].rung == RungAfter(base, c, i + 1) && positions[i].labels == labels[..i + 1])
    && Labelled(base, c, labels)
  }

  lemma ClimbedMore(base: Rung, c: Ceilings, positions: seq<Position>, labels: seq<RelaxLabel>, name: RelaxLabel,
                    g: Rung)
    requires Climbed(base, c, positions, labels)
    requires g == RungAfter(base, c, |positions| + 1) && Describes(name, RungAfter(base, c, |positions|), g, c)
    ensures Climbed(base, c, positions + [Position(labels + [name], g)], labels + [name])
  {
    var after := labels + [name];
    assert after[..|after|] == after;
    forall i | 0 <= i < |positions| ensures positions[i].labels == after[..i + 1] {
      assert after[..i + 1] == labels[..i + 1];
    }
  }

  /** Every rung above the base, with the labels of the steps that lead to it. */
  ghost predicate IsLadder(base: Rung, c: Ceilings, positions: seq<Position>) {
    forall i | 0 <= i < |positions| ::
      && positions[i].rung == RungAfter(base, c, i + 1) && |positions[i].labels| == i + 1
      && Labelled(base, c, positions[i].labels)
  }

  /** The ladder from the base to the ceilings. */
  method LadderPositions(base: Rung, c: Ceilings) returns (positions: seq<Position>)
    ensures |positions| == StepsLeft(base, c)
    ensures IsLadder(base, c, positions)
  {
    positions := [];
    var current := new CurrentCaps(base, c);
    var labels: seq<RelaxLabel> := [];
    while true
      invariant current.ceilings == c && |positions| <= StepsLeft(base, c)
      invariant current.Here() == RungAfter(base, c, |positions|)
      invariant Climbed(base, c, positions, labels)
      decreases StepsLeft(base, c) - |positions|
    {
      RungAfterSteps(base, c, |positions|);
      var name := current.RelaxStep();
      if name.Exhausted? {
        break;
      }
      var g := Level(current.R, current.T);
      ClimbedMore(base, c, positions, labels, name, g);
      labels := labels + [name];
      positions := positions + [Position(labels, g)];
    }
  }

  // ----- probing -----

  /** What one attempt at covering a component yields. */
  datatype Outcome = Cancelled | Done(assignments: seq<Assignment>)

  predicate Covers(o: Outcome, total: nat) {
    o.Done? && |o.assignments| == total
  }

  datatype Probe = Probe(rung: Rung, outcome: Outcome)

  /** The attempts a search makes: attempt(call number, rung, extended time). */
  class Prober {
    const attempt: (nat, Rung, bool) -> Outcome
    const total: nat
    var calls: nat
    ghost var probes: seq<Probe>

    ghost predicate Bounded() {
      forall i: nat, g: Rung, e: bool :: attempt(i, g, e).Done? ==> |attempt(i, g, e).assignments| <= total
    }

    constructor (attempt: (nat, Rung, bool) -> Outcome, total: nat)
      ensures this.attempt == attempt && this.total == total && calls == 0 && probes == []
    {
      this.attempt, this.total, this.calls, this.probes := attempt, total, 0, [];
    }

    /** The first attempt when it covers or is cancelled; else the retry when it is cancelled or assigns more. */
    ghost predicate Decided(from: nat, to: nat, g: Rung, o: Outcome) {
      var first, second := attempt(from, g, false), attempt(from + 1, g, true);
      if first.Cancelled? || |first.assignments| == total then to == from + 1 && o == first
      else
        && to == from + 2
        && o == if second.Cancelled? || |second.assignments| > |first.assignments| then second else first
    }

    /** One attempt, and a second one with more time unless the first covers or is cancelled. */
    method ProbeWithRetry(g: Rung) returns (o: Outcome)
      requires Bounded()
      modifies this
      ensures probes == old(probes) + [Probe(g, o)]
      ensures o.Done? ==> |o.assignments| <= total
      ensures Decided(old(calls), calls, g, o)
    {
      o := attempt(calls, g, false);
      calls := calls + 1;
      if o.Done? && |o.assignments| != total {
        var retry := attempt(calls, g, true);
        calls := calls + 1;
        if retry.Cancelled? || |retry.assignments| > |o.assignments| {
          o := retry;
        }
      }
      probes := probes + [Probe(g, o)];
    }
  }

  function Better(a: Outcome, b: Outcome, total: nat): Outcome
    requires a.Done? && b.Done?
  {
    if |a.assignments| == total then a
    else if |b.assignments| == total then b
    else if |a.assignments| >= |b.assignments| then a else b
  }

  // ----- the search -----

  function Pow2(n: nat): (r: nat)
    ensures r > 0
  {
    if n == 0 then 1 else 2 * Pow2(n - 1)
  }

  /** At most log2(n) + 1 probes were made over n candidates. */
  ghost predicate Logarithmic(probes: nat, n: nat) {
    probes == 0 || Pow2(probes - 1) <= n
  }

  /** For ladders with fewer than 1024 rungs between base and ceiling that means at most ten. */
  lemma TenProbes(probes: nat, n: nat)
    requires Logarithmic(probes, n) && n < 1024
    ensures probes <= 10
  {
    assert Pow2(5) == 32 && Pow2(10) == 1024;
    if 10 <= probes - 1 {
      Pow2Grows(10, probes - 1);
    }
  }

  lemma {:induction false} Pow2Grows(m: nat, n: nat)
    requires m <= n
    ensures Pow2(m) <= Pow2(n)
  {
    if m < n {
      Pow2Grows(m, n - 1);
    }
  }

  ghost predicate FellShort(probes: seq<Probe>, g: Rung, total: nat) {
    exists k: nat :: k < |probes| && probes[k].rung == g && !Covers(probes[k].outcome, total)
  }

  ghost predicate Covered(probes: seq<Probe>, g: Rung, o: Outcome) {
    exists k: nat :: k < |probes| && probes[k] == Probe(g, o)
  }

  /** What the search promises about a position it chose after the ceiling proved sufficient. */
  ghost predicate Chosen(base: Rung, c: Ceilings, probes: seq<Probe>, total: nat, n: nat, o: Outcome) {
    && 0 < n <= StepsLeft(base, c)
    && Covers(o, total)
    && Covered(probes, RungAfter(base, c, n), o)
    && FellShort(probes, RungAfter(base, c, n - 1), total)
  }

  /**
   The rung used is given by the number of labels: none is the base itself.
   */
  method SearchRelaxationLadder(prober: Prober, base: Rung, c: Ceilings)
    returns (result: Outcome, labels: seq<RelaxLabel>)
    requires prober.Bounded() && prober.probes == []
    modifies prober
    ensures |prober.probes| >= 1 && prober.probes[0].rung == base
    // a cancelled search reports the cancelled probe
    ensures result.Cancelled? <==> exists k: nat :: k < |prober.probes| && prober.probes[k].outcome.Cancelled?
    // the result is that of one of the probes, the labels are those of a rung
    ensures result.Done? ==>
      Labelled(base, c, labels) && exists k: nat :: k < |prober.probes| && prober.probes[k].outcome == result
    // never worse than the base
    ensures result.Done? ==>
      prober.probes[0].outcome.Done? && |result.assignments| >= |prober.probes[0].outcome.assignments|
    ensures result.Done? && Covers(prober.probes[0].outcome, prober.total) ==>
      labels == [] && result == prober.probes[0].outcome && |prober.probes| == 1
    // the ceiling covers: a covering rung whose lower neighbour fell short
    ensures result.Done? && |prober.probes| >= 2 && Covers(prober.probes[1].outcome, prober.total) ==>
      Chosen(base, c, prober.probes, prober.total, |labels|, result)
    // the ceiling does not cover: the longer answer of the two, with the labels of the whole ladder
    ensures result.Done? && |prober.probes| >= 2 && !Covers(prober.probes[1].outcome, prober.total) ==>
      |prober.probes| == 2 && |labels| == StepsLeft(base, c)
      && var low, top := prober.probes[0].outcome, prober.probes[1].outcome;
         result == if |top.assignments| > |low.assignments| then top else low
    ensures |prober.probes| >= 2 ==>
      StepsLeft(base, c) > 0 && prober.probes[1].rung == RungAfter(base, c, StepsLeft(base, c))
    ensures result.Done? && |prober.probes| == 1 && StepsLeft(base, c) > 0 ==> Covers(result, prober.total)
    // inner probes are logarithmic in the ladder's inner positions
    ensures |prober.probes| > 2 ==> Logarithmic(|prober.probes| - 2, StepsLeft(base, c) - 1)
  {
    labels := [];
    result := prober.ProbeWithRetry(base);
    if result.Cancelled? || |result.assignments| == prober.total {
      return;
    }
    var best := result;
    var ladder := LadderPositions(base, c);
    if ladder == [] {
      return;
    }
    var top := ladder[|ladder| - 1];
    var topResult := prober.ProbeWithRetry(top.rung);
    if topResult.Cancelled? {
      result := topResult;
      return;
    }
    best := Better(best, topResult, prober.total);
    if |topResult.assignments| < prober.total {
      result, labels := best, top.labels;
      return;
    }
    result, labels := SearchInside(prober, base, c, ladder, topResult);
  }

  /**
   The inner positions lo to hi, of n, are left: the rung below them fell short, the one above them
   covers with this result, and each probe so far left at most half of the range.
   */
  ghost predicate Searching(base: Rung, c: Ceilings, start: seq<Probe>, probes: seq<Probe>, total: nat, n: nat, lo: nat,
                            hi: int, result: Outcome, labels: seq<RelaxLabel>)
  {
    && lo <= hi + 1 <= n && |probes| >= 2 && probes[..2] == start
    && (forall k | 0 <= k < |probes| :: probes[k].outcome.Done?)
    && |labels| == hi + 2 && Labelled(base, c, labels) && Covers(result, total)
    && Covered(probes, RungAfter(base, c, hi + 2), result)
    && FellShort(probes, RungAfter(base, c, lo), total)
    && Pow2(|probes| - 2) * (hi - lo + 1) <= n
    && (|probes| > 2 ==> Logarithmic(|probes| - 2, n))
  }

  lemma RangeHalves(k: nat, lo: nat, mid: nat, hi: int, n: nat)
    requires lo <= hi && mid == (lo + hi) / 2 && Pow2(k) * (hi - lo + 1) <= n
    ensures Pow2(k + 1) * (mid - lo) <= n && Pow2(k + 1) * (hi - mid) <= n && Logarithmic(k + 1, n)
  {
    HalvingShrinks(Pow2(k), hi - lo + 1, mid - lo, hi - mid, n);
    assert Pow2(k + 1) == 2 * Pow2(k);
  }

  lemma ProbeCovers(base: Rung, c: Ceilings, start: seq<Probe>, probes: seq<Probe>, total: nat, n: nat, lo: nat,
                    hi: int, result: Outcome, labels: seq<RelaxLabel>, mid: nat, o: Outcome, labels': seq<RelaxLabel>)
    requires Searching(base, c, start, probes, total, n, lo, hi, result, labels) && lo <= hi && mid == (lo + hi) / 2
    requires Covers(o, total) && |labels'| == mid + 1 && Labelled(base, c, labels')
    ensures Searching(base, c, start, probes + [Probe(RungAfter(base, c, mid + 1), o)], total, n, lo, mid - 1, o,
                      labels')
  {
    var after := probes + [Probe(RungAfter(base, c, mid + 1), o)];
    ProbesKept(probes, after, total, RungAfter(base, c, hi + 2), RungAfter(base, c, lo), result);
    RangeHalves(|probes| - 2, lo, mid, hi, n);
    assert after[|probes|] == Probe(RungAfter(base, c, mid + 1), o);
  }

  lemma ProbeFalls(base: Rung, c: Ceilings, start: seq<Probe>, probes: seq<Probe>, total: nat, n: nat, lo: nat, hi: int,
                   result: Outcome, labels: seq<RelaxLabel>, mid: nat, o: Outcome)
    requires Searching(base, c, start, probes, total, n, lo, hi, result, labels) && lo <= hi && mid == (lo + hi) / 2
    requires o.Done? && !Covers(o, total)
    ensures Searching(base, c, start, probes + [Probe(RungAfter(base, c, mid + 1), o)], total, n, mid + 1, hi, result,
                      labels)
  {
    var after := probes + [Probe(RungAfter(base, c, mid + 1), o)];
    ProbesKept(probes, after, total, RungAfter(base, c, hi + 2), RungAfter(base, c, lo), result);
    RangeHalves(|probes| - 2, lo, mid, hi, n);
    assert after[|probes|] == Probe(RungAfter(base, c, mid + 1), o);
  }

  lemma SearchBegins(base: Rung, c: Ceilings, probes: seq<Probe>, total: nat, n: nat, result: Outcome,
                     labels: seq<RelaxLabel>)
    requires |probes| == 2 && forall k | 0 <= k < 2 :: probes[k].outcome.Done?
    requires probes[0].rung == base && !Covers(probes[0].outcome, total)
    requires probes[1] == Probe(RungAfter(base, c, n + 1), result) && Covers(result, total)
    requires |labels| == n + 1 && Labelled(base, c, labels)
    ensures Searching(base, c, probes, probes, total, n, 0, n - 1, result, labels)
  {
    assert Pow2(0) * n == n;
  }

  /** Halves the range of positions below the covering ceiling. */
  method SearchInside(prober: Prober, ghost base: Rung, ghost c: Ceilings, ladder: seq<Position>, topResult: Outcome)
    returns (result: Outcome, labels: seq<RelaxLabel>)
    requires prober.Bounded()
    requires |ladder| == StepsLeft(base, c) > 0
    requires IsLadder(base, c, ladder)
    requires |prober.probes| == 2 && forall k | 0 <= k < 2 :: prober.probes[k].outcome.Done?
    requires prober.probes[0].rung == base && !Covers(prober.probes[0].outcome, prober.total)
    requires prober.probes[1] == Probe(ladder[|ladder| - 1].rung, topResult) && Covers(topResult, prober.total)
    modifies prober
    ensures |prober.probes| >= 2 && prober.probes[..2] == old(prober.probes)
    ensures result.Cancelled? <==> exists k: nat :: k < |prober.probes| && prober.probes[k].outcome.Cancelled?
    ensures result.Done? ==>
      Labelled(base, c, labels) && Chosen(base, c, prober.probes, prober.total, |labels|, result)
    ensures |prober.probes| > 2 ==> Logarithmic(|prober.probes| - 2, StepsLeft(base, c) - 1)
  {
    var n := |ladder| - 1;
    result, labels := topResult, ladder[n].labels;
    var lo: nat, hi: int := 0, n - 1;
    ghost var start := prober.probes;
    SearchBegins(base, c, start, prober.total, n, result, labels);
    while lo <= hi
      invariant Searching(base, c, start, prober.probes, prober.total, n, lo, hi, result, labels)
      decreases hi - lo + 1
    {
      var mid := (lo + hi) / 2;
      result, labels, lo, hi := ProbeMiddle(prober, base, c, start, n, lo, hi, result, labels, mid, ladder[mid]);
      if result.Cancelled? {
        return;
      }
    }
  }

  /** Probes the middle position and goes on below it if it covers, above it if it does not. */
  method ProbeMiddle(prober: Prober, ghost base: Rung, ghost c: Ceilings, ghost start: seq<Probe>, ghost n: nat,
                     lo: nat, hi: int, result: Outcome, labels: seq<RelaxLabel>, mid: nat, position: Position)
    returns (result': Outcome, labels': seq<RelaxLabel>, lo': nat, hi': int)
    requires prober.Bounded() && lo <= hi && mid == (lo + hi) / 2
    requires Searching(base, c, start, prober.probes, prober.total, n, lo, hi, result, labels)
    requires position.rung == RungAfter(base, c, mid + 1) && |position.labels| == mid + 1
      && Labelled(base, c, position.labels)
    modifies prober
    ensures |prober.probes| == |old(prober.probes)| + 1 && prober.probes[..2] == start
    ensures Logarithmic(|prober.probes| - 2, n)
    ensures result'.Cancelled? ==> prober.probes[|old(prober.probes)|].outcome.Cancelled?
    ensures result'.Done? ==>
      && hi' - lo' < hi - lo
      && Searching(base, c, start, prober.probes, prober.total, n, lo', hi', result', labels')
  {
    ghost var before := prober.probes;
    RangeHalves(|before| - 2, lo, mid, hi, n);
    var o := prober.ProbeWithRetry(position.rung);
    result', labels', lo', hi' := result, labels, lo, hi;
    if o.Cancelled? {
      result', labels' := o, [];
    } else if |o.assignments| == prober.total {
      ProbeCovers(base, c, start, before, prober.total, n, lo, hi, result, labels, mid, o, position.labels);
      result', labels', hi' := o, position.labels, mid - 1;
    } else {
      ProbeFalls(base, c, start, before, prober.total, n, lo, hi, result, labels, mid, o);
      lo' := mid + 1;
    }
  }

  /** Each probe leaves at most half of the range. */
  lemma HalvingShrinks(p: nat, width: int, left: int, right: int, n: int)
    requires p > 0 && width > 0 && p * width <= n
    requires 0 <= 2 * left <= width && 0 <= 2 * right <= width
    ensures 2 * p * left <= n && 2 * p * right <= n
    ensures p <= n
  {
    assert p * (2 * left) <= p * width;
    assert p * (2 * right) <= p * width;
    assert p * 1 <= p * width;
  }

  lemma ProbesKept(before: seq<Probe>, after: seq<Probe>, total: nat, g: Rung, h: Rung, o: Outcome)
    requires before <= after
    requires Covered(before, g, o) && FellShort(before, h, total)
    ensures Covered(after, g, o) && FellShort(after, h, total)
  {
    var k: nat :| k < |before| && before[k] == Probe(g, o);
    assert after[k] == Probe(g, o);
    var m: nat :| m < |before| && before[m].rung == h && !Covers(before[m].outcome, total);
    assert after[m].rung == h && !Covers(after[m].outcome, total);
  }

  /** If coverage only depends on the rung and never gets lost on the way up, the chosen rung is the lowest. */
  lemma ChosenIsLowest(base: Rung, c: Ceilings, probes: seq<Probe>, total: nat, n: nat, o: Outcome,
                       coverable: Rung -> bool)
    requires Chosen(base, c, probes, total, n, o)
    requires forall k: nat | k < |probes| :: Covers(probes[k].outcome, total) <==> coverable(probes[k].rung)
    requires forall g: Rung, h: Rung | Lower(g, h) && coverable(g) :: coverable(h)
    ensures coverable(RungAfter(base, c, n))
    ensures forall m: nat | m < n :: !coverable(RungAfter(base, c, m))
  {
    var k: nat :| k < |probes| && probes[k].rung == RungAfter(base, c, n - 1) && !Covers(probes[k].outcome, total);
    var j: nat :| j < |probes| && probes[j] == Probe(RungAfter(base, c, n), o);
    assert coverable(probes[j].rung);
    forall m: nat | m < n ensures !coverable(RungAfter(base, c, m)) {
      if m < n - 1 {
        LadderRises(base, c, m, n - 1);
      }
    }
  }
}
