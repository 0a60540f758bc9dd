/**
 What the caches of the post-solve swap pass stand for, and what one transfer does to them.
 Soldiers and duties are named by their positions in the run.
 */
module SwapModel {
  import opened Domain
  import opened Arithmetic
  import opened Sums
  import opened Sorting
  import opened HardModel
  import Carry

  /** The data of a swap pass that never changes. */
  datatype Board = Board(
    soldiers: seq<Soldier>,
    duties: seq<Duty>,
    scores: seq<int>,             // block score of each duty
    existing: seq<Existing>,
    eligible: seq<set<nat>>,      // soldiers that may take each duty
    caps: Caps)

  ghost predicate WellFormed(B: Board) {
    |B.scores| == |B.duties| == |B.eligible|
  }

  /** Who holds which duty. */
  type Holding = map<nat, nat>

  ghost predicate Assigns(B: Board, h: Holding) {
    forall di: nat | di in h :: di < |B.duties| && h[di] < |B.soldiers|
  }

  function HeldBy(h: Holding, si: nat): set<nat> {
    set di | di in h && h[di] == si
  }

  // ----- dates -----

  function HeldDays(B: Board, held: set<nat>, realOnly: bool): set<int> {
    set di, t | di in held && di < |B.duties| && !(realOnly && B.duties[di].isReserve)
      && t in DutyDays(B.duties[di]) :: t
  }

  /** The days a soldier is booked: published bookings and held duties. */
  function DaysOf(B: Board, h: Holding, si: nat, realOnly: bool): set<int>
    requires si < |B.soldiers|
  {
    BookedDays(B.existing, B.soldiers[si].id, realOnly) + HeldDays(B, HeldBy(h, si), realOnly)
  }

  /** Held duties share no day with each other or with a published booking of their holder. */
  ghost predicate NoDoubleBooking(B: Board, h: Holding)
    requires Assigns(B, h)
  {
    && (forall di: nat | di in h ::
          DutyDays(B.duties[di]) !! BookedDays(B.existing, B.soldiers[h[di]].id, false))
    && (forall di: nat, dj: nat | di in h && dj in h && di != dj && h[di] == h[dj] ::
          DutyDays(B.duties[di]) !! DutyDays(B.duties[dj]))
  }

  lemma RealDaysAreDays(B: Board, h: Holding, si: nat)
    requires si < |B.soldiers|
    ensures DaysOf(B, h, si, true) <= DaysOf(B, h, si, false)
  {
    BookedDaysReal(B.existing, B.soldiers[si].id);
  }

  // ----- efforts -----

  function ScoreIfHeld(B: Board, h: Holding, si: nat): nat -> int {
    (di: nat) => if di in h && h[di] == si && di < |B.scores| then B.scores[di] else 0
  }

  /** Offset plus rate times the scores of the held duties. */
  function EffortOf(B: Board, h: Holding, si: nat): int
    requires si < |B.soldiers|
  {
    B.soldiers[si].effortOffset + B.soldiers[si].effortPerMilli * Sum(|B.duties|, ScoreIfHeld(B, h, si))
  }

  function Efforts(B: Board, h: Holding): nat -> int {
    (si: nat) => if si < |B.soldiers| then EffortOf(B, h, si) else 0
  }

  function TotalEffort(B: Board, h: Holding): int {
    Sum(|B.soldiers|, Efforts(B, h))
  }

  function Abs(x: int): nat {
    if x < 0 then -x else x
  }

  /** n times the distance of an effort from a mean of total / n. */
  function Deviation(n: nat, total: int, effort: int): nat {
    Abs(n * effort - total)
  }

  function Deviations(n: nat, total: int, e: nat -> int): nat -> int {
    (si: nat) => Deviation(n, total, e(si))
  }

  /** n times the population's L1 distance from the mean total / n. */
  function L1(B: Board, h: Holding, total: int): int {
    Sum(|B.soldiers|, Deviations(|B.soldiers|, total, Efforts(B, h)))
  }

  // ----- sums that change in one or two places -----

  lemma {:induction false} SumChangeOne(n: nat, f: nat -> int, g: nat -> int, k: nat)
    requires k < n && forall i: nat | i < n && i != k :: f(i) == g(i)
    ensures Sum(n, g) == Sum(n, f) - f(k) + g(k)
  {
    if k == n - 1 {
      SumExt(n - 1, f, g);
    } else {
      SumChangeOne(n - 1, f, g, k);
    }
  }

  lemma SumChangeTwo(n: nat, f: nat -> int, g: nat -> int, k: nat, m: nat)
    requires k < n && m < n && k != m && forall i: nat | i < n && i != k && i != m :: f(i) == g(i)
    ensures Sum(n, g) == Sum(n, f) - f(k) + g(k) - f(m) + g(m)
  {
    var mid := (i: nat) => if i == k then g(i) else f(i);
    SumChangeOne(n, f, mid, k);
    SumChangeOne(n, mid, g, m);
  }

  // ----- one transfer -----

  /** Duty di goes from its holder to a soldier who is free on its days. */
  ghost predicate CanMove(B: Board, h: Holding, di: nat, to: nat) {
    && Assigns(B, h) && di in h && to < |B.soldiers| && to != h[di]
    && DutyDays(B.duties[di]) !! DaysOf(B, h, to, false)
  }

  lemma MoveHoldings(B: Board, h: Holding, di: nat, to: nat)
    requires Assigns(B, h) && di in h && to < |B.soldiers| && to != h[di]
    ensures Assigns(B, h[di := to]) && h[di := to].Keys == h.Keys
    ensures HeldBy(h[di := to], h[di]) == HeldBy(h, h[di]) - {di}
    ensures HeldBy(h[di := to], to) == HeldBy(h, to) + {di}
    ensures forall si: nat | si != h[di] && si != to :: HeldBy(h[di := to], si) == HeldBy(h, si)
  {
  }

  /** The recipient gains the duty's days, real ones only if the duty is real. */
  lemma DaysGained(B: Board, h: Holding, di: nat, to: nat, realOnly: bool)
    requires CanMove(B, h, di, to)
    ensures DaysOf(B, h[di := to], to, realOnly)
            == DaysOf(B, h, to, realOnly)
               + (if realOnly && B.duties[di].isReserve then {} else DutyDays(B.duties[di]))
  {
    MoveHoldings(B, h, di, to);
    HeldDaysPlus(B, HeldBy(h, to), di, realOnly);
  }

  /** Day t belongs to this held duty, and the duty counts. */
  ghost predicate HeldOn(B: Board, held: set<nat>, realOnly: bool, t: int, di: nat) {
    di in held && di < |B.duties| && !(realOnly && B.duties[di].isReserve) && t in DutyDays(B.duties[di])
  }

  lemma HeldDaysMembers(B: Board, held: set<nat>, realOnly: bool, t: int)
    ensures t in HeldDays(B, held, realOnly) <==> exists di: nat :: HeldOn(B, held, realOnly, t, di)
  {
    if t in HeldDays(B, held, realOnly) {
      var di: nat :| di in held && di < |B.duties| && !(realOnly && B.duties[di].isReserve)
        && t in DutyDays(B.duties[di]);
      assert HeldOn(B, held, realOnly, t, di);
    }
  }

  lemma HeldDaysPlus(B: Board, held: set<nat>, di: nat, realOnly: bool)
    requires di < |B.duties|
    ensures HeldDays(B, held + {di}, realOnly)
            == HeldDays(B, held, realOnly)
               + (if realOnly && B.duties[di].isReserve then {} else DutyDays(B.duties[di]))
  {
    var extra := if realOnly && B.duties[di].isReserve then {} else DutyDays(B.duties[di]);
    forall t ensures t in HeldDays(B, held + {di}, realOnly) <==> t in HeldDays(B, held, realOnly) + extra {
      HeldDaysMembers(B, held, realOnly, t);
      HeldDaysMembers(B, held + {di}, realOnly, t);
      if dj: nat :| HeldOn(B, held + {di}, realOnly, t, dj) {
        assert HeldOn(B, held, realOnly, t, dj) || dj == di;
      }
      if dj: nat :| HeldOn(B, held, realOnly, t, dj) {
        assert HeldOn(B, held + {di}, realOnly, t, dj);
      }
      assert t in extra ==> HeldOn(B, held + {di}, realOnly, t, di);
    }
  }

  /** Days that no held duty occupies are not held. */
  lemma HeldDaysApart(B: Board, held: set<nat>, realOnly: bool, days: set<int>)
    requires forall di: nat | di in held && di < |B.duties| :: DutyDays(B.duties[di]) !! days
    ensures HeldDays(B, held, realOnly) !! days
  {
    forall t | t in HeldDays(B, held, realOnly) ensures t !in days {
      HeldDaysMembers(B, held, realOnly, t);
    }
  }

  /** Putting a duty down takes away its days and no others. */
  lemma HeldDaysMinus(B: Board, held: set<nat>, di: nat, realOnly: bool)
    requires di < |B.duties| && di in held
    requires forall dj: nat | dj in held - {di} && dj < |B.duties| :: DutyDays(B.duties[dj]) !! DutyDays(B.duties[di])
    ensures HeldDays(B, held, realOnly)
            == HeldDays(B, held - {di}, realOnly)
               + (if realOnly && B.duties[di].isReserve then {} else DutyDays(B.duties[di]))
    ensures HeldDays(B, held - {di}, realOnly) !! DutyDays(B.duties[di])
  {
    assert (held - {di}) + {di} == held;
    HeldDaysPlus(B, held - {di}, di, realOnly);
    HeldDaysApart(B, held - {di}, realOnly, DutyDays(B.duties[di]));
  }

  lemma WithoutAgain(booked: set<int>, rest: set<int>, gone: set<int>)
    requires booked !! gone && rest !! gone
    ensures booked + rest == booked + (rest + gone) - gone
  {
  }

  /** What keeps the donor's other duties and bookings off the days of the duty he gives away. */
  lemma DonorApart(B: Board, h: Holding, di: nat)
    requires Assigns(B, h) && di in h && NoDoubleBooking(B, h)
    ensures forall dj: nat | dj in HeldBy(h, h[di]) - {di} && dj < |B.duties| ::
              DutyDays(B.duties[dj]) !! DutyDays(B.duties[di])
    ensures BookedDays(B.existing, B.soldiers[h[di]].id, false) !! DutyDays(B.duties[di])
    ensures BookedDays(B.existing, B.soldiers[h[di]].id, true) !! DutyDays(B.duties[di])
  {
    BookedDaysReal(B.existing, B.soldiers[h[di]].id);
    forall dj: nat | dj in HeldBy(h, h[di]) - {di} && dj < |B.duties|
      ensures DutyDays(B.duties[dj]) !! DutyDays(B.duties[di])
    {
      assert dj in h && h[dj] == h[di];
    }
  }

  /** The donor loses exactly the duty's days: nothing else booked him on them. */
  lemma DaysLost(B: Board, h: Holding, di: nat, to: nat, realOnly: bool)
    requires CanMove(B, h, di, to) && NoDoubleBooking(B, h)
    ensures DaysOf(B, h[di := to], h[di], realOnly)
            == DaysOf(B, h, h[di], realOnly)
               - (if realOnly && B.duties[di].isReserve then {} else DutyDays(B.duties[di]))
  {
    MoveHoldings(B, h, di, to);
    DonorApart(B, h, di);
    var held := HeldBy(h, h[di]);
    HeldDaysMinus(B, held, di, realOnly);
    WithoutAgain(BookedDays(B.existing, B.soldiers[h[di]].id, realOnly), HeldDays(B, held - {di}, realOnly),
                 if realOnly && B.duties[di].isReserve then {} else DutyDays(B.duties[di]));
  }

  lemma DaysKept(B: Board, h: Holding, di: nat, to: nat, si: nat, realOnly: bool)
    requires CanMove(B, h, di, to) && si < |B.soldiers| && si != to && si != h[di]
    ensures DaysOf(B, h[di := to], si, realOnly) == DaysOf(B, h, si, realOnly)
  {
    MoveHoldings(B, h, di, to);
  }

  /** A transfer to a free soldier double-books nobody. */
  lemma MoveKeepsApart(B: Board, h: Holding, di: nat, to: nat)
    requires CanMove(B, h, di, to) && NoDoubleBooking(B, h)
    ensures Assigns(B, h[di := to]) && NoDoubleBooking(B, h[di := to])
  {
    var g := h[di := to];
    forall a: nat, b: nat | a in g && b in g && a != b && g[a] == g[b]
      ensures DutyDays(B.duties[a]) !! DutyDays(B.duties[b])
    {
      if a == di {
        HeldDayIsDay(B, h, to, b);
      } else if b == di {
        HeldDayIsDay(B, h, to, a);
      }
    }
  }

  lemma HeldDayIsDay(B: Board, h: Holding, si: nat, di: nat)
    requires Assigns(B, h) && di in h && h[di] == si
    ensures DutyDays(B.duties[di]) <= DaysOf(B, h, si, false)
  {
    assert di in HeldBy(h, si);
  }

  /** The donor's effort without the duty, the recipient's with it, and the new total. */
  function Relieved(B: Board, si: nat, di: nat, effort: int): int
    requires si < |B.soldiers| && di < |B.scores|
  {
    effort - B.soldiers[si].effortPerMilli * B.scores[di]
  }

  function Burdened(B: Board, si: nat, di: nat, effort: int): int
    requires si < |B.soldiers| && di < |B.scores|
  {
    effort + B.soldiers[si].effortPerMilli * B.scores[di]
  }

  function Shifted(B: Board, from: nat, to: nat, di: nat, total: int): int
    requires from < |B.soldiers| && to < |B.soldiers| && di < |B.scores|
  {
    total + (B.soldiers[to].effortPerMilli - B.soldiers[from].effortPerMilli) * B.scores[di]
  }

  /** Efforts change for the two parties only, by their own rate times the score. */
  lemma EffortsMoved(B: Board, h: Holding, di: nat, to: nat)
    requires WellFormed(B) && Assigns(B, h) && di in h && to < |B.soldiers| && to != h[di]
    ensures EffortOf(B, h[di := to], h[di]) == Relieved(B, h[di], di, EffortOf(B, h, h[di]))
    ensures EffortOf(B, h[di := to], to) == Burdened(B, to, di, EffortOf(B, h, to))
    ensures forall si: nat | si < |B.soldiers| && si != to && si != h[di] ::
      EffortOf(B, h[di := to], si) == EffortOf(B, h, si)
  {
    var g, from := h[di := to], h[di];
    var n := |B.duties|;
    SumChangeOne(n, ScoreIfHeld(B, h, from), ScoreIfHeld(B, g, from), di);
    SumChangeOne(n, ScoreIfHeld(B, h, to), ScoreIfHeld(B, g, to), di);
    Distribute(B.soldiers[from].effortPerMilli, Sum(n, ScoreIfHeld(B, h, from)), -B.scores[di]);
    Distribute(B.soldiers[to].effortPerMilli, Sum(n, ScoreIfHeld(B, h, to)), B.scores[di]);
    forall si: nat | si < |B.soldiers| && si != to && si != from
      ensures EffortOf(B, g, si) == EffortOf(B, h, si)
    {
      SumExt(n, ScoreIfHeld(B, h, si), ScoreIfHeld(B, g, si));
    }
  }

  lemma Distribute(a: int, b: int, c: int)
    ensures a * (b + c) == a * b + a * c
  {
  }

  lemma TotalMoved(B: Board, h: Holding, di: nat, to: nat)
    requires WellFormed(B) && Assigns(B, h) && di in h && to < |B.soldiers| && to != h[di]
    ensures TotalEffort(B, h[di := to]) == Shifted(B, h[di], to, di, TotalEffort(B, h))
  {
    EffortsMoved(B, h, di, to);
    SumChangeTwo(|B.soldiers|, Efforts(B, h), Efforts(B, h[di := to]), h[di], to);
    ShiftedIsBoth(B, h[di], to, di, EffortOf(B, h, h[di]), EffortOf(B, h, to), TotalEffort(B, h));
  }

  lemma ShiftedIsBoth(B: Board, from: nat, to: nat, di: nat, a: int, b: int, total: int)
    requires from < |B.soldiers| && to < |B.soldiers| && di < |B.scores|
    ensures Shifted(B, from, to, di, total) == total - a - b + Relieved(B, from, di, a) + Burdened(B, to, di, b)
  {
    Distribute(B.scores[di], B.soldiers[to].effortPerMilli, -B.soldiers[from].effortPerMilli);
  }

  // ----- progress -----

  /** The gain of a transfer, n times the fall of the two parties' distances from the mean. */
  function Gain(n: nat, total: int, a: int, b: int, a': int, b': int): int {
    Deviation(n, total, a) + Deviation(n, total, b) - Deviation(n, total, a') - Deviation(n, total, b')
  }

  /** A transfer lowers the population's distance from the old mean by its gain. */
  lemma L1FallsByGain(B: Board, h: Holding, di: nat, to: nat, total: int)
    requires WellFormed(B) && Assigns(B, h) && di in h && to < |B.soldiers| && to != h[di]
    ensures L1(B, h[di := to], total)
            == L1(B, h, total)
               - Gain(|B.soldiers|, total, EffortOf(B, h, h[di]), EffortOf(B, h, to),
                      EffortOf(B, h[di := to], h[di]), EffortOf(B, h[di := to], to))
  {
    EffortsMoved(B, h, di, to);
    var n := |B.soldiers|;
    SumChangeTwo(n, Deviations(n, total, Efforts(B, h)), Deviations(n, total, Efforts(B, h[di := to])), h[di], to);
  }

  /** Spreading two numbers with a fixed sum further apart never brings them closer to a mean. */
  lemma WiderIsFarther(lo: int, hi: int, w: int, m: int)
    requires lo <= hi && w >= 0
    ensures Abs(lo - w - m) + Abs(hi + w - m) >= Abs(lo - m) + Abs(hi - m)
  {
  }

  /** A gainful transfer of weight w at equal rates stays strictly inside the two efforts. */
  lemma GainKeepsInside(n: nat, total: int, a: int, b: int, w: int)
    requires b < a && n > 0
    requires Gain(n, total, a, b, a - w, b + w) > 0
    ensures 0 < w < a - b
  {
    var A, C, W := n * a, n * b, n * w;
    assert n * (a - w) == A - W && n * (b + w) == C + W;
    ScaleOrder(n, b, a);
    if w <= 0 {
      ScaleOrder(n, w, 1);
      WiderIsFarther(C, A, -W, total);
    } else if w >= a - b {
      assert n * (w - (a - b)) == W - (A - C);
      ScaleOrder(n, a - b, w + 1);
      WiderIsFarther(C, A, W - (A - C), total);
    }
  }

  lemma ScaleOrder(n: nat, x: int, y: int)
    requires n > 0 && x < y
    ensures n * x < n * y && n * x <= n * (y - 1)
  {
    var d := y - 1 - x;
    assert n * (y - 1) == n * x + n * d && n * y == n * (y - 1) + n;
    MulMonotone(0, d, n);
  }

  ghost predicate EqualRates(B: Board) {
    forall si: nat, sj: nat | si < |B.soldiers| && sj < |B.soldiers| ::
      B.soldiers[si].effortPerMilli == B.soldiers[sj].effortPerMilli
  }

  ghost predicate EffortsWithin(B: Board, h: Holding, lo: int, hi: int) {
    forall si: nat | si < |B.soldiers| :: lo <= EffortOf(B, h, si) <= hi
  }

  lemma TotalAtEqualRates(B: Board, h: Holding, di: nat, to: nat)
    requires WellFormed(B) && Assigns(B, h) && di in h && to < |B.soldiers| && to != h[di] && EqualRates(B)
    ensures TotalEffort(B, h[di := to]) == TotalEffort(B, h)
  {
    TotalMoved(B, h, di, to);
    var rate := B.soldiers[to].effortPerMilli;
    assert rate == B.soldiers[h[di]].effortPerMilli;
    assert (rate - rate) * B.scores[di] == 0;
  }

  lemma WithinAtEqualRates(B: Board, h: Holding, di: nat, to: nat, lo: int, hi: int, w: int)
    requires WellFormed(B) && Assigns(B, h) && di in h && to < |B.soldiers| && to != h[di]
    requires EffortsWithin(B, h, lo, hi)
    requires B.soldiers[to].effortPerMilli * B.scores[di] == w
    requires B.soldiers[h[di]].effortPerMilli * B.scores[di] == w
    requires 0 < w < EffortOf(B, h, h[di]) - EffortOf(B, h, to)
    ensures EffortsWithin(B, h[di := to], lo, hi)
  {
    EffortsMoved(B, h, di, to);
    var g := h[di := to];
    forall si: nat | si < |B.soldiers| ensures lo <= EffortOf(B, g, si) <= hi {
      assert lo <= EffortOf(B, h, si) <= hi;
      assert lo <= EffortOf(B, h, to) && EffortOf(B, h, h[di]) <= hi;
    }
  }

  /** What makes the pass accept a transfer. */
  ghost predicate Gainful(B: Board, h: Holding, di: nat, to: nat)
    requires Assigns(B, h) && di in h && to < |B.soldiers| && to != h[di] && Assigns(B, h[di := to])
  {
    && EffortOf(B, h, to) < EffortOf(B, h, h[di])
    && Gain(|B.soldiers|, TotalEffort(B, h), EffortOf(B, h, h[di]), EffortOf(B, h, to),
            EffortOf(B, h[di := to], h[di]), EffortOf(B, h[di := to], to)) > 0
  }

  /** Every accepted transfer strictly lowers the distance from the mean it was measured against. */
  lemma GainfulLowersL1(B: Board, h: Holding, di: nat, to: nat)
    requires WellFormed(B) && Assigns(B, h) && di in h && to < |B.soldiers| && to != h[di] && Assigns(B, h[di := to])
    requires Gainful(B, h, di, to)
    ensures L1(B, h[di := to], TotalEffort(B, h)) < L1(B, h, TotalEffort(B, h))
  {
    L1FallsByGain(B, h, di, to, TotalEffort(B, h));
  }

  /** At equal rates the mean stays, so the true distance falls, the maximum does not rise, the minimum not fall. */
  lemma GainfulAtEqualRates(B: Board, h: Holding, di: nat, to: nat, lo: int, hi: int)
    requires WellFormed(B) && Assigns(B, h) && di in h && to < |B.soldiers| && to != h[di] && Assigns(B, h[di := to])
    requires EqualRates(B) && EffortsWithin(B, h, lo, hi) && Gainful(B, h, di, to)
    ensures TotalEffort(B, h[di := to]) == TotalEffort(B, h)
    ensures L1(B, h[di := to], TotalEffort(B, h[di := to])) < L1(B, h, TotalEffort(B, h))
    ensures EffortsWithin(B, h[di := to], lo, hi)
  {
    TotalAtEqualRates(B, h, di, to);
    GainfulLowersL1(B, h, di, to);
    var w := WeightInside(B, h, di, to);
    WithinAtEqualRates(B, h, di, to, lo, hi, w);
  }

  lemma WeightInside(B: Board, h: Holding, di: nat, to: nat) returns (w: int)
    requires WellFormed(B) && Assigns(B, h) && di in h && to < |B.soldiers| && to != h[di] && Assigns(B, h[di := to])
    requires EqualRates(B) && Gainful(B, h, di, to)
    ensures w == B.soldiers[to].effortPerMilli * B.scores[di] == B.soldiers[h[di]].effortPerMilli * B.scores[di]
    ensures 0 < w < EffortOf(B, h, h[di]) - EffortOf(B, h, to)
  {
    EffortsMoved(B, h, di, to);
    w := B.soldiers[to].effortPerMilli * B.scores[di];
    assert B.soldiers[to].effortPerMilli == B.soldiers[h[di]].effortPerMilli;
    GainKeepsInside(|B.soldiers|, TotalEffort(B, h), EffortOf(B, h, h[di]), EffortOf(B, h, to), w);
  }

  // ----- density -----

  /** Booked days of a soldier in a window. */
  function Load(B: Board, h: Holding, si: nat, realOnly: bool, ws: int, width: nat): nat
    requires si < |B.soldiers|
  {
    |Between(DaysOf(B, h, si, realOnly), ws, ws + width - 1)|
  }

  /** The windows that contain a day of the duty. */
  predicate Touches(d: Duty, ws: int, width: nat) {
    d.start < d.end && d.start - width < ws < d.end
  }

  /** Every window that the duty touches holds at least one day less than the cap. */
  ghost predicate Roomy(days: set<int>, d: Duty, width: nat, cap: int) {
    forall ws: int | Touches(d, ws, width) :: |Between(days, ws, ws + width - 1)| + 1 <= cap
  }

  /** The recipient has room for one more day in every window that the duty touches. */
  ghost predicate RoomForOne(B: Board, h: Holding, di: nat, to: nat, realOnly: bool, width: nat, cap: int)
    requires di < |B.duties| && to < |B.soldiers|
  {
    Roomy(DaysOf(B, h, to, realOnly), B.duties[di], width, cap)
  }

  lemma DaysAddOverlap(before: set<int>, d: Duty, ws: int, width: nat)
    requires before !! DutyDays(d)
    ensures |Between(before + DutyDays(d), ws, ws + width - 1)|
      == |Between(before, ws, ws + width - 1)| + Overlap(d, ws, width)
  {
    var lo, hi := ws, ws + width - 1;
    assert Between(before + DutyDays(d), lo, hi) == Between(before, lo, hi) + Between(DutyDays(d), lo, hi);
    assert Between(before, lo, hi) !! Between(DutyDays(d), lo, hi);
    Carry.BetweenDays(d.start, d.end, ws, width, d);
  }

  /** Each of the recipient's windows gains exactly the days that the duty has in it. */
  lemma LoadGained(B: Board, h: Holding, di: nat, to: nat, realOnly: bool, ws: int, width: nat)
    requires CanMove(B, h, di, to)
    ensures Load(B, h[di := to], to, realOnly, ws, width)
            == Load(B, h, to, realOnly, ws, width)
               + if realOnly && B.duties[di].isReserve then 0 else Overlap(B.duties[di], ws, width)
  {
    DaysGained(B, h, di, to, realOnly);
    RealDaysAreDays(B, h, to);
    var before := DaysOf(B, h, to, realOnly);
    if realOnly && B.duties[di].isReserve {
      assert before + {} == before;
    } else {
      DaysAddOverlap(before, B.duties[di], ws, width);
    }
  }

  lemma OneDayOverlap(d: Duty, ws: int, width: nat)
    requires d.end == d.start + 1 && !Touches(d, ws, width)
    ensures Overlap(d, ws, width) == 0
  {
  }

  /** A touched window of the recipient ends with at most cap - 1 plus the duty's days in it. */
  lemma RecipientDensity(B: Board, h: Holding, di: nat, to: nat, realOnly: bool, ws: int, width: nat, cap: int)
    requires CanMove(B, h, di, to) && RoomForOne(B, h, di, to, realOnly, width, cap)
    requires Touches(B.duties[di], ws, width)
    ensures Load(B, h[di := to], to, realOnly, ws, width) <= cap - 1 + Overlap(B.duties[di], ws, width)
    ensures B.duties[di].end == B.duties[di].start + 1 ==> Load(B, h[di := to], to, realOnly, ws, width) <= cap
  {
    LoadGained(B, h, di, to, realOnly, ws, width);
    assert Load(B, h, to, realOnly, ws, width) + 1 <= cap;
  }

  /** The exact condition for a window to stay within its cap: room for all the duty's days in it, not for one. */
  lemma StaysWithinCap(B: Board, h: Holding, di: nat, to: nat, realOnly: bool, ws: int, width: nat, cap: int)
    requires CanMove(B, h, di, to)
    ensures Load(B, h[di := to], to, realOnly, ws, width) <= cap
            <==> Load(B, h, to, realOnly, ws, width)
                 + (if realOnly && B.duties[di].isReserve then 0 else Overlap(B.duties[di], ws, width)) <= cap
  {
    LoadGained(B, h, di, to, realOnly, ws, width);
  }

  lemma OthersLoseDays(B: Board, h: Holding, di: nat, to: nat, si: nat, realOnly: bool)
    requires CanMove(B, h, di, to) && NoDoubleBooking(B, h) && si < |B.soldiers| && si != to
    ensures DaysOf(B, h[di := to], si, realOnly) <= DaysOf(B, h, si, realOnly)
  {
    if si == h[di] {
      DaysLost(B, h, di, to, realOnly);
    } else {
      DaysKept(B, h, di, to, si, realOnly);
    }
  }

  lemma FewerDaysLowerLoad(B: Board, before: Holding, after: Holding, si: nat, realOnly: bool, ws: int, width: nat)
    requires si < |B.soldiers| && DaysOf(B, after, si, realOnly) <= DaysOf(B, before, si, realOnly)
    ensures Load(B, after, si, realOnly, ws, width) <= Load(B, before, si, realOnly, ws, width)
  {
    SubsetSize(Between(DaysOf(B, after, si, realOnly), ws, ws + width - 1),
               Between(DaysOf(B, before, si, realOnly), ws, ws + width - 1));
  }

  /** No window of the donor, or of anybody else but the recipient, gets fuller. */
  lemma OthersDensity(B: Board, h: Holding, di: nat, to: nat, si: nat, realOnly: bool, ws: int, width: nat)
    requires CanMove(B, h, di, to) && NoDoubleBooking(B, h) && si < |B.soldiers| && si != to
    ensures Load(B, h[di := to], si, realOnly, ws, width) <= Load(B, h, si, realOnly, ws, width)
  {
    OthersLoseDays(B, h, di, to, si, realOnly);
    FewerDaysLowerLoad(B, h, h[di := to], si, realOnly, ws, width);
  }
}
