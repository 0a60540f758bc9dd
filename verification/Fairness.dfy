/**
 The count-space effort of the fairness objective: efforts scaled to [0, K], and the proof that
 the deviation variables' domain never cuts off an assignment.
 */
module Fairness {
  import opened Domain
  import opened Sums
  import opened Arithmetic
  import opened Sorting
  import opened HardModel

  function Clamp(x: int, hi: int): int {
    var y := if x < hi then x else hi;
    if y < 0 then 0 else y
  }

  function AtLeastOne(x: int): int {
    if x < 1 then 1 else x
  }

  /** A soldier's past effort on the scale [0, resolution]. */
  function CountOffset(s: Soldier, rangeMin: int, rangeSize: int, resolution: nat): int
    requires rangeSize > 0
  {
    Clamp((s.effortOffset - rangeMin) * resolution / rangeSize, resolution)
  }

  /** The weight of one duty for a soldier of the given rate, at least one. */
  function Weight(rate: int, score: int, rangeSize: int, resolution: nat): int
    requires rangeSize > 0
  {
    AtLeastOne(rate * score * resolution / rangeSize)
  }

  /** Inside the range an effort goes to its share of the scale, rounded down; outside to the nearer end. */
  lemma OffsetMeaning(s: Soldier, rangeMin: int, rangeSize: int, resolution: nat)
    requires rangeSize > 0
    ensures var o := CountOffset(s, rangeMin, rangeSize, resolution);
            && (s.effortOffset <= rangeMin ==> o == 0)
            && (s.effortOffset >= rangeMin + rangeSize ==> o == resolution)
            && (rangeMin <= s.effortOffset <= rangeMin + rangeSize ==>
                  o * rangeSize <= (s.effortOffset - rangeMin) * resolution < (o + 1) * rangeSize)
  {
    var e := s.effortOffset - rangeMin;
    DivBounds(e * resolution, rangeSize);
    if e <= 0 {
      MulMonotone(e, 0, resolution);
      assert (0 + 1) * rangeSize == rangeSize;
      DivAtMost(e * resolution, rangeSize, 0);
    }
    if e >= rangeSize {
      MulMonotone(rangeSize, e, resolution);
      assert rangeSize * resolution == resolution * rangeSize;
      DivAtLeast(e * resolution, rangeSize, resolution);
    }
    if 0 <= e <= rangeSize {
      MulMonotone(0, e, resolution);
      assert 0 * rangeSize == 0;
      DivAtLeast(e * resolution, rangeSize, 0);
      MulMonotone(e, rangeSize, resolution);
      assert (resolution + 1) * rangeSize == rangeSize * resolution + rangeSize;
      DivAtMost(e * resolution, rangeSize, resolution);
    }
  }

  /** A weight is the duty's share of the scale, rounded down, and one where that is less. */
  lemma WeightMeaning(rate: int, score: int, rangeSize: int, resolution: nat)
    requires rangeSize > 0
    ensures var w := Weight(rate, score, rangeSize, resolution);
            if rate * score * resolution < rangeSize then w == 1
            else w * rangeSize <= rate * score * resolution < (w + 1) * rangeSize
  {
    var a := rate * score * resolution;
    DivBounds(a, rangeSize);
    if a < rangeSize {
      assert (0 + 1) * rangeSize == rangeSize;
      DivAtMost(a, rangeSize, 0);
    } else {
      assert 1 * rangeSize == rangeSize;
      DivAtLeast(a, rangeSize, 1);
    }
  }

  function Score(P: Problem): nat -> int {
    (di: nat) => if di < |P.duties| then BlockScore(P.duties[di]) else 0
  }

  // ----- the auto-derived range -----

  function LeastOffset(ss: seq<Soldier>): (r: int)
    requires ss != []
    ensures forall s | s in ss :: r <= s.effortOffset
    ensures exists s :: s in ss && s.effortOffset == r
  {
    var s := ss[|ss| - 1];
    if |ss| == 1 then s.effortOffset
    else
      var before := LeastOffset(ss[..|ss| - 1]);
      assert ss == ss[..|ss| - 1] + [s];
      if s.effortOffset < before then s.effortOffset else before
  }

  function GreatestOffset(ss: seq<Soldier>): (r: int)
    requires ss != []
    ensures forall s | s in ss :: s.effortOffset <= r
    ensures exists s :: s in ss && s.effortOffset == r
  {
    var s := ss[|ss| - 1];
    if |ss| == 1 then s.effortOffset
    else
      var before := GreatestOffset(ss[..|ss| - 1]);
      assert ss == ss[..|ss| - 1] + [s];
      if s.effortOffset > before then s.effortOffset else before
  }

  function GreatestRate(ss: seq<Soldier>): (r: int)
    requires ss != []
    ensures forall s | s in ss :: s.effortPerMilli <= r
    ensures exists s :: s in ss && s.effortPerMilli == r
  {
    var s := ss[|ss| - 1];
    if |ss| == 1 then s.effortPerMilli
    else
      var before := GreatestRate(ss[..|ss| - 1]);
      assert ss == ss[..|ss| - 1] + [s];
      if s.effortPerMilli > before then s.effortPerMilli else before
  }

  /** Soldiers whose effort moves at all. */
  function Active(ss: seq<Soldier>): (r: seq<Soldier>)
    ensures forall s :: s in r <==> s in ss && s.effortPerMilli > 0
  {
    if ss == [] then []
    else
      var last := ss[|ss| - 1];
      assert ss == ss[..|ss| - 1] + [last];
      Active(ss[..|ss| - 1]) + if last.effortPerMilli > 0 then [last] else []
  }

  function TotalScore(P: Problem): int {
    Sum(|P.duties|, Score(P))
  }

  datatype Range = NoRange | Range(min: int, size: int)

  /** The spread of efforts from the least past effort to the most that this run can add up to. */
  function AutoRange(P: Problem): (r: Range)
    ensures r.Range? ==> r.size > 0
  {
    var active := Active(P.soldiers);
    if active == [] then NoRange
    else
      var lo := LeastOffset(active);
      var hi := GreatestOffset(active) + GreatestRate(active) * TotalScore(P);
      Range(lo, AtLeastOne(hi - lo))
  }

  /** There is a range exactly when somebody's effort moves. */
  lemma RangeIffSomeoneMoves(P: Problem)
    ensures AutoRange(P).Range? <==> exists s :: Moves(P, s)
  {
    var active := Active(P.soldiers);
    if s :| Moves(P, s) {
      assert s in active;
    }
    if active != [] {
      assert active[0] in active;
      assert Moves(P, active[0]);
    }
  }

  /**
   Among the soldiers whose effort moves, the range starts at the least past effort and spans, by at
   least one, to the greatest past effort plus all scores at the greatest rate.
   */
  lemma AutoRangeMeaning(P: Problem, a: Soldier, b: Soldier, c: Soldier)
    requires Moves(P, a) && Moves(P, b) && Moves(P, c)
    requires forall s | Moves(P, s) ::
      a.effortOffset <= s.effortOffset <= b.effortOffset && s.effortPerMilli <= c.effortPerMilli
    ensures var span := b.effortOffset + c.effortPerMilli * TotalScore(P) - a.effortOffset;
            AutoRange(P) == Range(a.effortOffset, if span < 1 then 1 else span)
  {
    ExtremesOf(P, Active(P.soldiers), a, b, c);
    AutoRangeIs(P, a.effortOffset, b.effortOffset, c.effortPerMilli);
  }

  lemma ExtremesOf(P: Problem, active: seq<Soldier>, a: Soldier, b: Soldier, c: Soldier)
    requires active == Active(P.soldiers) && Moves(P, a) && Moves(P, b) && Moves(P, c)
    requires forall s | Moves(P, s) ::
      a.effortOffset <= s.effortOffset <= b.effortOffset && s.effortPerMilli <= c.effortPerMilli
    ensures active != []
    ensures LeastOffset(active) == a.effortOffset && GreatestOffset(active) == b.effortOffset
    ensures GreatestRate(active) == c.effortPerMilli
  {
    assert a in active && b in active && c in active;
    forall s | s in active ensures Moves(P, s) {
    }
  }

  lemma AutoRangeIs(P: Problem, lo: int, hi: int, rate: int)
    requires Active(P.soldiers) != [] && LeastOffset(Active(P.soldiers)) == lo
    requires GreatestOffset(Active(P.soldiers)) == hi && GreatestRate(Active(P.soldiers)) == rate
    ensures AutoRange(P) == Range(lo, AtLeastOne(hi + rate * TotalScore(P) - lo))
  {
  }

  ghost predicate Moves(P: Problem, s: Soldier) {
    s in P.soldiers && s.effortPerMilli > 0
  }

  ghost predicate NonNegative(P: Problem) {
    && (forall s | s in P.soldiers :: s.effortPerMilli >= 0)
    && (forall di: nat | di < |P.duties| :: Score(P)(di) >= 0)
  }

  /** A range wide enough for one soldier to take every duty. */
  ghost predicate RangeCovers(P: Problem, size: int) {
    size > 0 && forall s | s in P.soldiers :: s.effortPerMilli * TotalScore(P) <= size
  }

  lemma RangeHoldsFastest(P: Problem)
    requires AutoRange(P).Range?
    ensures Active(P.soldiers) != [] && GreatestRate(Active(P.soldiers)) * TotalScore(P) <= AutoRange(P).size
  {
    var active := Active(P.soldiers);
    assert active[0] in active;
    assert LeastOffset(active) <= active[0].effortOffset <= GreatestOffset(active);
  }

  lemma SlowerEarnsLess(rate: int, hi: int, total: int)
    requires rate <= hi && total >= 0
    ensures rate * total <= hi * total
  {
    MulMonotone(rate, hi, total);
  }

  lemma AutoRangeCovers(P: Problem)
    requires NonNegative(P) && AutoRange(P).Range?
    ensures RangeCovers(P, AutoRange(P).size)
  {
    var hi, total, size := GreatestRate(Active(P.soldiers)), TotalScore(P), AutoRange(P).size;
    TotalNonNegative(P);
    RangeHoldsFastest(P);
    var active := Active(P.soldiers);
    assert active[0] in active && hi > 0;
    forall s | s in P.soldiers ensures s.effortPerMilli * total <= size {
      assert s.effortPerMilli <= hi by {
        assert s in active || s.effortPerMilli <= 0;
      }
      SlowerEarnsLess(s.effortPerMilli, hi, total);
    }
  }

  lemma TotalNonNegative(P: Problem)
    requires NonNegative(P)
    ensures TotalScore(P) >= 0
  {
    SumZero(|P.duties|, (_: nat) => 0);
    SumMonotone(|P.duties|, (_: nat) => 0, Score(P));
  }

  // ----- floor division over a sum -----

  /** Weights of one rate over the first n duties. */
  function Weights(rate: int, scores: nat -> int, size: int, resolution: nat): nat -> int
    requires size > 0
  {
    (di: nat) => Weight(rate, scores(di), size, resolution)
  }

  /** Rounding each weight down, and up to one, costs at most one per duty. */
  lemma {:induction false} WeightsBound(n: nat, rate: int, scores: nat -> int, size: int, resolution: nat)
    requires size > 0 && rate >= 0 && forall i: nat | i < n :: scores(i) >= 0
    ensures size * Sum(n, Weights(rate, scores, size, resolution)) <= rate * Sum(n, scores) * resolution + size * n
    ensures Sum(n, Weights(rate, scores, size, resolution)) >= n
  {
    if n > 0 {
      WeightsBound(n - 1, rate, scores, size, resolution);
      OneWeight(rate, scores(n - 1), size, resolution);
      AddBounds(size, Sum(n - 1, Weights(rate, scores, size, resolution)),
        Weight(rate, scores(n - 1), size, resolution),
                rate, Sum(n - 1, scores), scores(n - 1), resolution, n);
    }
  }

  lemma AddBounds(size: int, w: int, v: int, rate: int, a: int, b: int, resolution: int, n: int)
    requires size * w <= rate * a * resolution + size * (n - 1)
    requires size * v <= rate * b * resolution + size
    ensures size * (w + v) <= rate * (a + b) * resolution + size * n
  {
    assert size * (w + v) == size * w + size * v;
    assert size * n == size * (n - 1) + size;
    assert rate * (a + b) == rate * a + rate * b;
    assert (rate * a + rate * b) * resolution == rate * a * resolution + rate * b * resolution;
  }

  lemma OneWeight(rate: int, score: int, size: int, resolution: nat)
    requires size > 0 && rate >= 0 && score >= 0
    ensures 1 <= Weight(rate, score, size, resolution)
    ensures size * Weight(rate, score, size, resolution) <= rate * score * resolution + size
  {
    var x := rate * score * resolution;
    assert rate * score >= 0;
    assert x >= 0;
    DivBounds(x, size);
    assert x / size * size == size * (x / size);
  }

  lemma CancelFactor(size: int, w: int, k: int, n: int)
    requires size > 0 && size * w <= size * k + size * n
    ensures w <= k + n
  {
    assert size * k + size * n == (k + n) * size;
    assert size * w == w * size;
    assert (k + n + 1) * size == (k + n) * size + size;
    MulCancel(w, k + n + 1, size);
  }

  /** All duties together weigh at most the resolution plus one per duty, for any soldier. */
  lemma AllWeights(P: Problem, rate: int, size: int, resolution: nat)
    requires NonNegative(P) && size > 0 && rate >= 0 && rate * TotalScore(P) <= size
    ensures Sum(|P.duties|, Weights(rate, Score(P), size, resolution)) <= resolution + |P.duties|
  {
    var n := |P.duties|;
    WeightsBound(n, rate, Score(P), size, resolution);
    MulMonotone(rate * TotalScore(P), size, resolution);
    CancelFactor(size, Sum(n, Weights(rate, Score(P), size, resolution)), resolution, n);
  }

  // ----- the deviation variables -----

  /** New weight that a point gives to a soldier, over his eligible duties. */
  function ChosenWeight(P: Problem, x: Point, si: nat, size: int, resolution: nat): nat -> int
    requires si < |P.soldiers| && size > 0
  {
    (di: nat) =>
      if Eligible(P, di, si) && (di, si) in x
      then Weight(P.soldiers[si].effortPerMilli, Score(P)(di), size, resolution) else 0
  }

  /** A soldier's count-space total: past effort plus chosen weight. */
  function CountTotal(P: Problem, x: Point, si: nat, r: Range, resolution: nat): int
    requires si < |P.soldiers| && r.Range? && r.size > 0
  {
    CountOffset(P.soldiers[si], r.min, r.size, resolution)
    + Sum(|P.duties|, ChosenWeight(P, x, si, r.size, resolution))
  }

  lemma TotalWithin(P: Problem, x: Point, si: nat, r: Range, resolution: nat)
    requires NonNegative(P) && si < |P.soldiers| && r.Range? && RangeCovers(P, r.size)
    ensures 0 <= CountTotal(P, x, si, r, resolution) <= 2 * resolution + |P.duties|
  {
    var n, s := |P.duties|, P.soldiers[si];
    var f, g := ChosenWeight(P, x, si, r.size, resolution), Weights(s.effortPerMilli, Score(P), r.size, resolution);
    assert s in P.soldiers;
    forall di: nat | di < n ensures 0 <= f(di) <= g(di) {
      OneWeight(s.effortPerMilli, Score(P)(di), r.size, resolution);
    }
    SumZero(n, (_: nat) => 0);
    SumMonotone(n, (_: nat) => 0, f);
    SumMonotone(n, f, g);
    AllWeights(P, s.effortPerMilli, r.size, resolution);
  }

  // ----- the centre -----

  /** Average rate of the soldiers eligible for a duty, rounded down; zero if there are none. */
  function AverageRate(P: Problem, di: nat): int {
    var sis := Filter(|P.soldiers|, (si: nat) => Eligible(P, di, si));
    if sis == [] then 0 else SumOver(sis, Rate(P)) / |sis|
  }

  function Rate(P: Problem): nat -> int {
    (si: nat) => if si < |P.soldiers| then P.soldiers[si].effortPerMilli else 0
  }

  lemma {:induction false} SumBound(s: seq<nat>, f: nat -> int, hi: int)
    requires forall i | 0 <= i < |s| :: 0 <= f(s[i]) <= hi
    ensures 0 <= SumOver(s, f) <= hi * |s|
  {
    if s != [] {
      SumBound(s[1..], f, hi);
      assert hi * |s| == hi * |s[1..]| + hi;
    }
  }

  function HighestRate(P: Problem): (r: int)
    ensures forall s | s in P.soldiers :: s.effortPerMilli <= r
    ensures P.soldiers != [] ==> exists s :: s in P.soldiers && s.effortPerMilli == r
  {
    if P.soldiers == [] then 0 else GreatestRate(P.soldiers)
  }

  lemma AverageWithin(P: Problem, di: nat)
    requires NonNegative(P)
    ensures 0 <= AverageRate(P, di) <= if P.soldiers == [] then 0 else HighestRate(P)
  {
    var sis := Filter(|P.soldiers|, (si: nat) => Eligible(P, di, si));
    if sis != [] {
      var hi := HighestRate(P);
      forall i | 0 <= i < |sis| ensures 0 <= Rate(P)(sis[i]) <= hi {
        assert P.soldiers[sis[i]] in P.soldiers;
      }
      SumBound(sis, Rate(P), hi);
      assert 0 * |sis| == 0;
      DivAtLeast(SumOver(sis, Rate(P)), |sis|, 0);
      assert (hi + 1) * |sis| == hi * |sis| + |sis|;
      DivAtMost(SumOver(sis, Rate(P)), |sis|, hi);
      assert P.soldiers != [];
    }
  }

  /** The unit weight of a duty at the average eligible rate. */
  function UnitWeight(P: Problem, size: int, resolution: nat): nat -> int
    requires size > 0
  {
    (di: nat) => Weight(AverageRate(P, di), Score(P)(di), size, resolution)
  }

  function Offsets(P: Problem, r: Range, resolution: nat): nat -> int
    requires r.Range? && r.size > 0
  {
    (si: nat) => if si < |P.soldiers| then CountOffset(P.soldiers[si], r.min, r.size, resolution) else 0
  }

  /** Soldiers that can receive at least one duty. */
  function Receivers(P: Problem): (r: seq<nat>)
    ensures Below(r, |P.soldiers|) && Increasing(r)
  {
    Filter(|P.soldiers|, (si: nat) => exists di: nat | di < |P.duties| :: Eligible(P, di, si))
  }

  /** The fixed centre that totals are measured against. */
  function Centre(P: Problem, r: Range, resolution: nat): int
    requires r.Range? && r.size > 0 && Receivers(P) != []
  {
    (SumOver(Receivers(P), Offsets(P, r, resolution)) + Sum(|P.duties|, UnitWeight(P, r.size, resolution)))
    / |Receivers(P)|
  }

  lemma UnitWeightsBound(P: Problem, size: int, resolution: nat)
    requires NonNegative(P) && RangeCovers(P, size) && P.soldiers != []
    ensures 0 <= Sum(|P.duties|, UnitWeight(P, size, resolution)) <= resolution + |P.duties|
  {
    var n, hi := |P.duties|, HighestRate(P);
    var s :| s in P.soldiers && s.effortPerMilli == hi;
    var f, g := UnitWeight(P, size, resolution), Weights(hi, Score(P), size, resolution);
    forall di: nat | di < n ensures 0 <= f(di) <= g(di) {
      AverageWithin(P, di);
      HigherRateWeighsMore(AverageRate(P, di), hi, Score(P)(di), size, resolution);
    }
    SumZero(n, (_: nat) => 0);
    SumMonotone(n, (_: nat) => 0, f);
    SumMonotone(n, f, g);
    AllWeights(P, hi, size, resolution);
  }

  lemma HigherRateWeighsMore(rate: int, hi: int, score: int, size: int, resolution: nat)
    requires 0 <= rate <= hi && score >= 0 && size > 0
    ensures 1 <= Weight(rate, score, size, resolution) <= Weight(hi, score, size, resolution)
  {
    MulMonotone(rate, hi, score);
    MulMonotone(rate * score, hi * score, resolution);
    DivMonotone(rate * score * resolution, hi * score * resolution, size);
  }

  lemma OffsetsBound(P: Problem, r: Range, resolution: nat)
    requires r.Range? && r.size > 0
    ensures 0 <= SumOver(Receivers(P), Offsets(P, r, resolution)) <= resolution * |Receivers(P)|
  {
    SumBound(Receivers(P), Offsets(P, r, resolution), resolution);
  }

  lemma CentreIs(P: Problem, r: Range, resolution: nat, a: int, b: int)
    requires r.Range? && r.size > 0 && Receivers(P) != []
    requires a == SumOver(Receivers(P), Offsets(P, r, resolution))
    requires b == Sum(|P.duties|, UnitWeight(P, r.size, resolution))
    ensures Centre(P, r, resolution) == (a + b) / |Receivers(P)|
  {
  }

  lemma CentreWithin(P: Problem, r: Range, resolution: nat)
    requires NonNegative(P) && r.Range? && RangeCovers(P, r.size) && Receivers(P) != []
    ensures 0 <= Centre(P, r, resolution) <= 2 * resolution + |P.duties|
  {
    assert Receivers(P)[0] < |P.soldiers|;
    OffsetsBound(P, r, resolution);
    UnitWeightsBound(P, r.size, resolution);
    var a := SumOver(Receivers(P), Offsets(P, r, resolution));
    var b := Sum(|P.duties|, UnitWeight(P, r.size, resolution));
    CentreArithmetic(a, b, |Receivers(P)|, resolution, |P.duties|);
    CentreIs(P, r, resolution, a, b);
  }

  lemma CentreArithmetic(a: int, b: int, n: nat, resolution: nat, duties: nat)
    requires n > 0 && 0 <= a <= resolution * n && 0 <= b <= resolution + duties
    ensures 0 <= (a + b) / n <= 2 * resolution + duties
  {
    assert 0 * n == 0;
    DivAtLeast(a + b, n, 0);
    var hi := 2 * resolution + duties;
    assert (hi + 1) * n == resolution * n + (resolution + duties) * n + n;
    MulMonotone(1, n, resolution + duties);
    assert n * (resolution + duties) == (resolution + duties) * n;
    DivAtMost(a + b, n, hi);
  }

  // ----- what the centre is the centre of -----

  lemma {:induction false} SumOverAdd(s: seq<nat>, f: nat -> int, g: nat -> int, h: nat -> int)
    requires forall i: nat | i in s :: h(i) == f(i) + g(i)
    ensures SumOver(s, h) == SumOver(s, f) + SumOver(s, g)
  {
    if s != [] {
      SumOverAdd(s[1..], f, g, h);
    }
  }

  lemma {:induction false} SumOverConstant(s: seq<nat>, f: nat -> int, a: int)
    requires forall i: nat | i in s :: f(i) == a
    ensures SumOver(s, f) == a * |s|
  {
    if s != [] {
      SumOverConstant(s[1..], f, a);
      assert a * |s| == a * |s[1..]| + a;
    }
  }

  lemma {:induction false} SumOverOnce(s: seq<nat>, f: nat -> int, k: nat)
    requires Increasing(s) && k in s && forall i: nat | i in s && i != k :: f(i) == 0
    ensures SumOver(s, f) == f(k)
  {
    if s[0] == k {
      forall i: nat | i in s[1..] ensures f(i) == 0 {
        var j :| 0 <= j < |s[1..]| && s[1..][j] == i;
        assert s[0] < s[j + 1];
      }
      SumOverConstant(s[1..], f, 0);
    } else {
      assert s == [s[0]] + s[1..];
      SumOverOnce(s[1..], f, k);
    }
  }

  /** New weight over the first n duties, for one soldier. */
  function WeightSoFar(P: Problem, x: Point, r: Range, resolution: nat, n: nat): nat -> int
    requires r.Range? && r.size > 0
  {
    (si: nat) => if si < |P.soldiers| then Sum(n, ChosenWeight(P, x, si, r.size, resolution)) else 0
  }

  /** What the n-th duty adds for one soldier. */
  function WeightAt(P: Problem, x: Point, r: Range, resolution: nat, n: nat): nat -> int
    requires r.Range? && r.size > 0
  {
    (si: nat) => if si < |P.soldiers| then ChosenWeight(P, x, si, r.size, resolution)(n) else 0
  }

  function Totals(P: Problem, x: Point, r: Range, resolution: nat): nat -> int
    requires r.Range? && r.size > 0
  {
    (si: nat) => if si < |P.soldiers| then CountTotal(P, x, si, r, resolution) else 0
  }

  /** Every duty goes to exactly one soldier who may take it. */
  ghost predicate GivesAll(P: Problem, x: Point) {
    && OverVariables(P, x)
    && (forall di: nat | di < |P.duties| :: Covered(x, di))
    && (forall di: nat, si: nat, sj: nat | (di, si) in x && (di, sj) in x :: si == sj)
  }

  /** Everyone who may take a duty has this rate. */
  ghost predicate RateOfAll(P: Problem, rate: int) {
    forall di: nat, si: nat | Eligible(P, di, si) :: P.soldiers[si].effortPerMilli == rate
  }

  lemma AverageAtEqualRates(P: Problem, di: nat, si: nat, rate: int)
    requires RateOfAll(P, rate) && Eligible(P, di, si)
    ensures AverageRate(P, di) == rate
  {
    var sis := Filter(|P.soldiers|, (s: nat) => Eligible(P, di, s));
    assert si in sis;
    SumOverConstant(sis, Rate(P), rate);
    assert (rate + 1) * |sis| == rate * |sis| + |sis|;
    DivIs(rate * |sis|, |sis|, rate);
  }

  lemma WeightsOfOne(P: Problem, x: Point, r: Range, resolution: nat, rate: int, di: nat, si: nat)
    requires r.Range? && r.size > 0 && GivesAll(P, x) && RateOfAll(P, rate) && (di, si) in x
    ensures WeightAt(P, x, r, resolution, di)(si) == UnitWeight(P, r.size, resolution)(di)
    ensures forall sj: nat | sj != si :: WeightAt(P, x, r, resolution, di)(sj) == 0
  {
    assert Eligible(P, di, si);
    AverageAtEqualRates(P, di, si, rate);
    assert ChosenWeight(P, x, si, r.size, resolution)(di) == Weight(rate, Score(P)(di), r.size, resolution);
    forall sj: nat | sj != si ensures WeightAt(P, x, r, resolution, di)(sj) == 0 {
      if sj < |P.soldiers| {
        assert (di, sj) !in x;
        assert ChosenWeight(P, x, sj, r.size, resolution)(di) == 0;
      }
    }
  }

  lemma TakerReceives(P: Problem, di: nat, si: nat)
    requires Eligible(P, di, si)
    ensures si in Receivers(P)
  {
  }

  /** Each duty adds its unit weight to the totals of the receivers together. */
  lemma DutyWeighsOnce(P: Problem, x: Point, r: Range, resolution: nat, rate: int, di: nat)
    requires r.Range? && r.size > 0 && GivesAll(P, x) && RateOfAll(P, rate) && di < |P.duties|
    ensures SumOver(Receivers(P), WeightAt(P, x, r, resolution, di)) == UnitWeight(P, r.size, resolution)(di)
  {
    assert Covered(x, di);
    var si: nat :| (di, si) in x;
    TakerReceives(P, di, si);
    WeightsOfOne(P, x, r, resolution, rate, di, si);
    SumOverOnce(Receivers(P), WeightAt(P, x, r, resolution, di), si);
  }

  lemma {:induction false} AllWeighOnce(P: Problem, x: Point, r: Range, resolution: nat, rate: int, n: nat)
    requires r.Range? && r.size > 0 && GivesAll(P, x) && RateOfAll(P, rate) && n <= |P.duties|
    ensures SumOver(Receivers(P), WeightSoFar(P, x, r, resolution, n)) == Sum(n, UnitWeight(P, r.size, resolution))
  {
    if n == 0 {
      SumOverConstant(Receivers(P), WeightSoFar(P, x, r, resolution, 0), 0);
    } else {
      AllWeighOnce(P, x, r, resolution, rate, n - 1);
      DutyWeighsOnce(P, x, r, resolution, rate, n - 1);
      SumOverAdd(Receivers(P), WeightSoFar(P, x, r, resolution, n - 1), WeightAt(P, x, r, resolution, n - 1),
        WeightSoFar(P, x, r, resolution, n));
    }
  }

  /**
   At equal rates the fixed centre is the mean, rounded down, of the totals that every choice which
   gives each duty to one soldier ends with, past effort included.
   */
  lemma CentreIsMean(P: Problem, x: Point, r: Range, resolution: nat, rate: int)
    requires r.Range? && r.size > 0 && Receivers(P) != [] && GivesAll(P, x) && RateOfAll(P, rate)
    ensures var n, sum := |Receivers(P)|, SumOver(Receivers(P), Totals(P, x, r, resolution));
            Centre(P, r, resolution) * n <= sum < (Centre(P, r, resolution) + 1) * n
  {
    AllWeighOnce(P, x, r, resolution, rate, |P.duties|);
    var a := SumOver(Receivers(P), Offsets(P, r, resolution));
    var b := SumOver(Receivers(P), WeightSoFar(P, x, r, resolution, |P.duties|));
    TotalsSplit(P, x, r, resolution);
    CentreIs(P, r, resolution, a, b);
    DivBounds(a + b, |Receivers(P)|);
  }

  lemma TotalsSplit(P: Problem, x: Point, r: Range, resolution: nat)
    requires r.Range? && r.size > 0
    ensures SumOver(Receivers(P), Totals(P, x, r, resolution))
            == SumOver(Receivers(P), Offsets(P, r, resolution))
               + SumOver(Receivers(P), WeightSoFar(P, x, r, resolution, |P.duties|))
  {
    SumOverAdd(Receivers(P), Offsets(P, r, resolution), WeightSoFar(P, x, r, resolution, |P.duties|),
      Totals(P, x, r, resolution));
  }

  /** The upper bound the model gives every deviation variable. */
  function DeviationBound(P: Problem, resolution: nat): nat {
    2 * resolution + |P.duties| + 1
  }

  /** A value for the deviation variable that meets its domain and both of its inequalities. */
  ghost predicate DeviationFits(P: Problem, x: Point, si: nat, r: Range, resolution: nat, dev: int)
    requires si < |P.soldiers| && r.Range? && r.size > 0 && Receivers(P) != []
  {
    Bounds(CountTotal(P, x, si, r, resolution), Centre(P, r, resolution), DeviationBound(P, resolution), dev)
  }

  /** A deviation between zero and the bound that is at least the distance from total to centre. */
  ghost predicate Bounds(total: int, centre: int, bound: int, dev: int) {
    0 <= dev <= bound && dev >= total - centre && dev >= centre - total
  }

  function Gap(total: int, centre: int): int {
    if total < centre then centre - total else total - centre
  }

  /** Every choice over the variables leaves the soldier's deviation variable a value. */
  ghost predicate CutsNothing(P: Problem, si: nat, r: Range, resolution: nat)
    requires si < |P.soldiers| && r.Range? && r.size > 0 && Receivers(P) != []
  {
    forall x: Point | OverVariables(P, x) :: exists dev: int :: DeviationFits(P, x, si, r, resolution, dev)
  }

  /** All variables at one. */
  ghost function AllPairs(P: Problem): Point {
    set di: nat, si: nat | di < |P.duties| && si < |P.soldiers| && Eligible(P, di, si) :: (di, si)
  }

  /** The two extreme choices, no duty at all and every duty he may take, stay within the bound. */
  ghost predicate ExtremesFit(P: Problem, si: nat, r: Range, resolution: nat)
    requires si < |P.soldiers| && r.Range? && r.size > 0 && Receivers(P) != []
  {
    && Centre(P, r, resolution) - CountTotal(P, {}, si, r, resolution) <= 2 * resolution + |P.duties| + 1
    && CountTotal(P, AllPairs(P), si, r, resolution) - Centre(P, r, resolution) <= 2 * resolution + |P.duties| + 1
  }

  /** A value exists exactly when the distance itself fits, and then that is the least one. */
  lemma DeviationFitsIff(P: Problem, x: Point, si: nat, r: Range, resolution: nat)
    requires si < |P.soldiers| && r.Range? && r.size > 0 && Receivers(P) != []
    ensures var least := Gap(CountTotal(P, x, si, r, resolution), Centre(P, r, resolution));
            && ((exists dev: int :: DeviationFits(P, x, si, r, resolution, dev))
                 <==> least <= DeviationBound(P, resolution))
            && (least <= DeviationBound(P, resolution) ==> DeviationFits(P, x, si, r, resolution, least))
            && forall dev: int | DeviationFits(P, x, si, r, resolution, dev) :: least <= dev
  {
    var total, centre, bound := CountTotal(P, x, si, r, resolution), Centre(P, r, resolution),
      DeviationBound(P, resolution);
    forall dev: int ensures DeviationFits(P, x, si, r, resolution, dev) <==> Gap(total, centre) <= dev <= bound {
      BoundsGap(total, centre, bound, dev);
    }
    if Gap(total, centre) <= bound {
      assert DeviationFits(P, x, si, r, resolution, Gap(total, centre));
    }
  }

  lemma BoundsGap(total: int, centre: int, bound: int, dev: int)
    ensures Bounds(total, centre, bound, dev) <==> Gap(total, centre) <= dev <= bound
  {
  }

  /** Weights are at least one, so a larger choice never lowers a total. */
  lemma TotalBetweenExtremes(P: Problem, x: Point, si: nat, r: Range, resolution: nat)
    requires si < |P.soldiers| && r.Range? && r.size > 0 && OverVariables(P, x)
    ensures CountTotal(P, {}, si, r, resolution) <= CountTotal(P, x, si, r, resolution)
            <= CountTotal(P, AllPairs(P), si, r, resolution)
  {
    var n := |P.duties|;
    var none, some := ChosenWeight(P, {}, si, r.size, resolution), ChosenWeight(P, x, si, r.size, resolution);
    var all := ChosenWeight(P, AllPairs(P), si, r.size, resolution);
    forall di: nat | di < n ensures none(di) <= some(di) <= all(di) {
      var w := Weight(P.soldiers[si].effortPerMilli, Score(P)(di), r.size, resolution);
      assert w >= 1 && none(di) == 0;
      assert some(di) == w || some(di) == 0;
      assert all(di) == if Eligible(P, di, si) then w else 0;
    }
    SumMonotone(n, none, some);
    SumMonotone(n, some, all);
  }

  /**
   The domain of the deviation variable cuts off no choice exactly when it has room for the two
   extreme ones, whatever range the settings stamp and whatever the rates and scores.
   */
  lemma CutsNothingIffExtremesFit(P: Problem, si: nat, r: Range, resolution: nat)
    requires si < |P.soldiers| && r.Range? && r.size > 0 && Receivers(P) != []
    ensures CutsNothing(P, si, r, resolution) <==> ExtremesFit(P, si, r, resolution)
  {
    var none: Point := {};
    assert OverVariables(P, none) && OverVariables(P, AllPairs(P));
    DeviationFitsIff(P, none, si, r, resolution);
    DeviationFitsIff(P, AllPairs(P), si, r, resolution);
    if ExtremesFit(P, si, r, resolution) {
      forall x: Point | OverVariables(P, x) ensures exists dev: int :: DeviationFits(P, x, si, r, resolution, dev) {
        TotalBetweenExtremes(P, none, si, r, resolution);
        TotalBetweenExtremes(P, x, si, r, resolution);
        DeviationFitsIff(P, x, si, r, resolution);
      }
    }
    if CutsNothing(P, si, r, resolution) {
      assert exists dev: int :: DeviationFits(P, none, si, r, resolution, dev);
      assert exists dev: int :: DeviationFits(P, AllPairs(P), si, r, resolution, dev);
    }
  }

  /** With a range that covers the batch, the distance is always a legal value and the least one. */
  lemma DomainNeverCutsOff(P: Problem, x: Point, si: nat, r: Range, resolution: nat)
    requires NonNegative(P) && si < |P.soldiers| && r.Range? && RangeCovers(P, r.size) && Receivers(P) != []
    ensures var least := Gap(CountTotal(P, x, si, r, resolution), Centre(P, r, resolution));
            && DeviationFits(P, x, si, r, resolution, least)
            && forall dev: int | DeviationFits(P, x, si, r, resolution, dev) :: least <= dev
  {
    TotalWithin(P, x, si, r, resolution);
    CentreWithin(P, r, resolution);
    DeviationFitsIff(P, x, si, r, resolution);
  }

  /** The range derived from the batch itself, on which the job's own solves run, cuts off nothing. */
  lemma AutoRangeCutsNothing(P: Problem, si: nat, resolution: nat)
    requires NonNegative(P) && si < |P.soldiers| && AutoRange(P).Range? && Receivers(P) != []
    ensures CutsNothing(P, si, AutoRange(P), resolution)
  {
    AutoRangeCovers(P);
    var r := AutoRange(P);
    forall x: Point | OverVariables(P, x) ensures exists dev: int :: DeviationFits(P, x, si, r, resolution, dev) {
      DomainNeverCutsOff(P, x, si, r, resolution);
    }
  }

  // ----- no range: every duty weighs one -----

  function PlainTotal(P: Problem, x: Point, si: nat): int {
    Sum(|P.duties|, Bits((di: nat) => (di, si) in x))
  }

  /** When nobody's effort moves, the smaller domain of that branch cuts nothing off either. */
  lemma PlainNeverCutsOff(P: Problem, x: Point, si: nat)
    requires Receivers(P) != []
    ensures PlainTotal(P, x, si) == |set di: nat | di < |P.duties| && (di, si) in x|
    ensures var gap := PlainTotal(P, x, si) - |P.duties| / |Receivers(P)|;
            0 <= (if gap < 0 then -gap else gap) <= |P.duties| + 1
  {
    var n := |P.duties|;
    var p := (di: nat) => (di, si) in x;
    var chosen := Bits(p);
    CountIsSize(n, p);
    assert (set di: nat | di < n && p(di)) == set di: nat | di < |P.duties| && (di, si) in x;
    SumZero(n, (_: nat) => 0);
    SumMonotone(n, (_: nat) => 0, chosen);
    SumAtMostCount(n, chosen);
    var m := |Receivers(P)|;
    assert 0 * m == 0;
    DivAtLeast(n, m, 0);
    MulMonotone(1, m, n + 1);
    assert m * (n + 1) == (n + 1) * m;
    DivAtMost(n, m, n);
  }

  lemma {:induction false} SumAtMostCount(n: nat, f: nat -> int)
    requires forall i: nat | i < n :: f(i) <= 1
    ensures Sum(n, f) <= n
  {
    if n > 0 {
      SumAtMostCount(n - 1, f);
    }
  }

  // ----- a range that is too narrow -----

  /** Two equal soldiers who may both take the one duty, a day worth 1000, with room for it in both caps. */
  function NarrowProblem(): Problem {
    Problem([Soldier(0, {}, 0, 1), Soldier(1, {}, 0, 1)],
            [Duty(0, 0, 0, 1, 0, 60, 1.0, false, [], 0)],
            [], Caps(1, 1, 1, 1), (s: Id, d: Id) => true)
  }

  /** The duty goes to the first soldier. */
  const FIRST_SERVES: Point := {(0, 0)}

  /** A stamped range of size one. */
  const NARROW := Range(0, 1)

  lemma NarrowScore()
    ensures Score(NarrowProblem())(0) == 1000 && NonNegative(NarrowProblem())
  {
    var d := NarrowProblem().duties[0];
    assert -((-60) / 1440) == 1;
    assert ScoreDays(d.start, d.end, d.startTime, d.endTime) == 1;
    assert d.scorePerDay * (1 as real) * 1000.0 == 1000.0;
    assert BlockScore(d) == 1000;
  }

  lemma {:induction false} LastAtLeast(r: seq<nat>)
    requires Increasing(r)
    ensures r != [] ==> r[|r| - 1] >= |r| - 1
  {
    if |r| > 1 {
      LastAtLeast(r[..|r| - 1]);
    }
  }

  lemma FirstTwo(r: seq<nat>)
    requires Increasing(r) && Below(r, 2) && 0 in r && 1 in r
    ensures r == [0, 1]
  {
    var i, j :| 0 <= i < |r| && 0 <= j < |r| && r[i] == 0 && r[j] == 1;
    LastAtLeast(r);
  }

  lemma NarrowReceivers(P: Problem)
    requires P == NarrowProblem()
    ensures Receivers(P) == [0, 1] && Filter(2, (si: nat) => Eligible(P, 0, si)) == [0, 1]
  {
    assert Eligible(P, 0, 0) && Eligible(P, 0, 1);
    var p := (si: nat) => exists di: nat | di < |P.duties| :: Eligible(P, di, si);
    assert p(0) && p(1);
    FirstTwo(Filter(2, p));
    var q := (si: nat) => Eligible(P, 0, si);
    assert q(0) && q(1);
    FirstTwo(Filter(2, q));
  }

  lemma NarrowRate(P: Problem)
    requires P == NarrowProblem()
    ensures AverageRate(P, 0) == 1 && UnitWeight(P, 1, 10)(0) == 10000
  {
    NarrowReceivers(P);
    SumOfTwo(Rate(P));
    NarrowScore();
  }

  lemma SumOfTwo(f: nat -> int)
    ensures SumOver([0, 1], f) == f(0) + f(1)
  {
    assert [0, 1][1..] == [1] && [1][1..] == [];
  }

  lemma NarrowCentre(P: Problem)
    requires P == NarrowProblem()
    ensures Receivers(P) != [] && Centre(P, NARROW, 10) == 5000
  {
    NarrowReceivers(P);
    NarrowRate(P);
    assert Sum(0, UnitWeight(P, 1, 10)) == 0 && Sum(1, UnitWeight(P, 1, 10)) == 10000;
    SumOfTwo(Offsets(P, NARROW, 10));
    CentreIs(P, NARROW, 10, 0, 10000);
  }

  /** The choice meets every hard constraint. */
  lemma NarrowChoiceLegal(P: Problem)
    requires P == NarrowProblem()
    ensures HardSat(P, FIRST_SERVES, Hard)
  {
    assert Eligible(P, 0, 0);
    assert (0, 0) in FIRST_SERVES;
    assert Covered(FIRST_SERVES, 0);
    forall si: nat, ws: int, realOnly: bool | si < 2
      ensures WindowFits(P, FIRST_SERVES, si, ws, 1, realOnly, 1)
    {
      var f := Contribution(P, FIRST_SERVES, si, ws, 1, realOnly);
      assert Sum(0, f) == 0 && Sum(1, f) == f(0);
      assert f(0) <= 1;
      assert BookedDays([], P.soldiers[si].id, realOnly) == {};
      assert Between({}, ws, ws) == {};
    }
    forall si: nat | si < 2 ensures SoldierOk(P, FIRST_SERVES, si) {
      assert DensityOk(P, FIRST_SERVES, si);
    }
  }

  /**
   A settings object with a stamped range of size one leaves the idle soldier's deviation variable
   without a value, though the choice meets every hard constraint.
   */
  lemma NarrowRangeCutsOff(P: Problem)
    requires P == NarrowProblem()
    ensures HardSat(P, FIRST_SERVES, Hard) && NonNegative(P) && Receivers(P) != []
    ensures forall dev: int :: !DeviationFits(P, FIRST_SERVES, 1, NARROW, 10, dev)
    ensures !CutsNothing(P, 1, NARROW, 10)
  {
    NarrowChoiceLegal(P);
    NarrowScore();
    NarrowCentre(P);
    var f := ChosenWeight(P, FIRST_SERVES, 1, 1, 10);
    assert f(0) == 0;
    assert Sum(0, f) == 0 && Sum(1, f) == 0;
    assert CountTotal(P, FIRST_SERVES, 1, NARROW, 10) == 0;
    DeviationFitsIff(P, FIRST_SERVES, 1, NARROW, 10);
  }
}
