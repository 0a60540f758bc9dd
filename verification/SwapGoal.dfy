/**
 What the swap pass is for, without the pass: the transfers that its rules allow, read off the
 calendar, and those among them that bring the population closer to its mean effort.
 */
module SwapGoal {
  import opened Domain
  import opened Sums
  import opened Sorting
  import opened SwapModel
  import opened SwapPass
  import opened HardModel
  import CalendarForm

  ghost predicate HeldDuty(B: Board, h: Holding, si: nat, realOnly: bool, t: int, di: nat) {
    && di in h && h[di] == si && di < |B.duties|
    && (realOnly ==> !B.duties[di].isReserve) && B.duties[di].start <= t < B.duties[di].end
  }

  ghost predicate PublishedDuty(B: Board, si: nat, realOnly: bool, t: int)
    requires si < |B.soldiers|
  {
    exists e :: e in B.existing && e.soldier == B.soldiers[si].id && (realOnly ==> !e.isReserve) && e.start <= t < e.end
  }

  ghost predicate OnDuty(B: Board, h: Holding, si: nat, realOnly: bool, t: int)
    requires si < |B.soldiers|
  {
    PublishedDuty(B, si, realOnly, t) || exists di: nat :: HeldDuty(B, h, si, realOnly, t, di)
  }

  /** His days on duty in [ws, ws + width). */
  ghost function DaysOnDuty(B: Board, h: Holding, si: nat, realOnly: bool, ws: int, width: nat): set<int>
    requires si < |B.soldiers|
  {
    set t | ws <= t < ws + width && OnDuty(B, h, si, realOnly, t)
  }

  /** Every window that starts on a day of the duty, or before it and reaches it, holds fewer days than the cap. */
  ghost predicate BelowCap(B: Board, h: Holding, di: nat, to: nat, realOnly: bool, width: nat, cap: int)
    requires di < |B.duties| && to < |B.soldiers|
  {
    forall ws: int | B.duties[di].start < B.duties[di].end && B.duties[di].start - width < ws < B.duties[di].end ::
      |DaysOnDuty(B, h, to, realOnly, ws, width)| < cap
  }

  // ----- efforts -----

  function Magnitude(x: real): real {
    if x < 0.0 then -x else x
  }

  ghost function Mean(B: Board, h: Holding): real
    requires B.soldiers != []
  {
    TotalEffort(B, h) as real / |B.soldiers| as real
  }

  ghost function RealSum(n: nat, f: nat -> real): real {
    if n == 0 then 0.0 else RealSum(n - 1, f) + f(n - 1)
  }

  ghost function Distances(B: Board, h: Holding, mean: real): nat -> real {
    (si: nat) => Magnitude(Efforts(B, h)(si) as real - mean)
  }

  /** How far the soldiers' efforts are from the mean, together. */
  ghost function Distance(B: Board, h: Holding, mean: real): real {
    RealSum(|B.soldiers|, Distances(B, h, mean))
  }

  // ----- transfers -----

  /**
   The rules let the duty go to this soldier: he is eligible, off duty on its days and below the
   caps around it, its holder is above the mean, and he is below the holder.
   */
  ghost predicate Allowed(B: Board, h: Holding, di: nat, to: nat)
    requires WellFormed(B) && Assigns(B, h)
  {
    && di in h && to < |B.soldiers| && to != h[di] && to in B.eligible[di]
    && (forall t: int | B.duties[di].start <= t < B.duties[di].end :: !OnDuty(B, h, to, false, t))
    && (B.duties[di].isReserve || BelowCap(B, h, di, to, true, B.caps.Wt, B.caps.T))
    && BelowCap(B, h, di, to, false, B.caps.Wr, B.caps.R)
    && EffortOf(B, h, h[di]) as real > Mean(B, h)
    && EffortOf(B, h, to) < EffortOf(B, h, h[di])
  }

  /** The transfer is allowed and brings the population closer to the mean it has now. */
  ghost predicate WouldHelp(B: Board, h: Holding, di: nat, to: nat)
    requires WellFormed(B) && Assigns(B, h)
  {
    && Allowed(B, h, di, to)
    && Distance(B, h[di := to], Mean(B, h)) < Distance(B, h, Mean(B, h))
  }

  ghost predicate NothingHelps(B: Board, h: Holding)
    requires WellFormed(B) && Assigns(B, h)
  {
    forall di: nat, to: nat :: !WouldHelp(B, h, di, to)
  }

  // ----- the pass looks for just these -----

  lemma DaysOfMeans(B: Board, h: Holding, si: nat, realOnly: bool)
    requires si < |B.soldiers|
    ensures forall t :: t in DaysOf(B, h, si, realOnly) <==> OnDuty(B, h, si, realOnly, t)
  {
    forall t ensures t in DaysOf(B, h, si, realOnly) <==> OnDuty(B, h, si, realOnly, t) {
      CalendarForm.BookedDaysMeaning(B.existing, B.soldiers[si].id, realOnly, t);
      HeldDaysMembers(B, HeldBy(h, si), realOnly, t);
      if di: nat :| HeldDuty(B, h, si, realOnly, t, di) {
        assert HeldOn(B, HeldBy(h, si), realOnly, t, di);
      }
      if di: nat :| HeldOn(B, HeldBy(h, si), realOnly, t, di) {
        assert HeldDuty(B, h, si, realOnly, t, di);
      }
    }
  }

  lemma LoadMeans(B: Board, h: Holding, si: nat, realOnly: bool, ws: int, width: nat)
    requires si < |B.soldiers|
    ensures Load(B, h, si, realOnly, ws, width) == |DaysOnDuty(B, h, si, realOnly, ws, width)|
  {
    DaysOfMeans(B, h, si, realOnly);
    assert Between(DaysOf(B, h, si, realOnly), ws, ws + width - 1) == DaysOnDuty(B, h, si, realOnly, ws, width);
  }

  lemma RoomMeans(B: Board, h: Holding, di: nat, to: nat, realOnly: bool, width: nat, cap: int)
    requires di < |B.duties| && to < |B.soldiers|
    ensures RoomForOne(B, h, di, to, realOnly, width, cap) <==> BelowCap(B, h, di, to, realOnly, width, cap)
  {
    var d := B.duties[di];
    forall ws: int ensures Load(B, h, to, realOnly, ws, width) == |DaysOnDuty(B, h, to, realOnly, ws, width)| {
      LoadMeans(B, h, to, realOnly, ws, width);
    }
    if BelowCap(B, h, di, to, realOnly, width, cap) {
      forall ws: int | Touches(d, ws, width) ensures Load(B, h, to, realOnly, ws, width) + 1 <= cap {
        assert |DaysOnDuty(B, h, to, realOnly, ws, width)| < cap;
      }
    }
    if RoomForOne(B, h, di, to, realOnly, width, cap) {
      forall ws: int | d.start < d.end && d.start - width < ws < d.end
        ensures |DaysOnDuty(B, h, to, realOnly, ws, width)| < cap
      {
        assert Touches(d, ws, width);
        assert Load(B, h, to, realOnly, ws, width) + 1 <= cap;
      }
    }
  }

  lemma ReceivableMeans(B: Board, h: Holding, di: nat, to: nat)
    requires di < |B.duties| && to < |B.soldiers|
    ensures Receivable(B, h, di, to) <==>
              && (forall t: int | B.duties[di].start <= t < B.duties[di].end :: !OnDuty(B, h, to, false, t))
              && (B.duties[di].isReserve || BelowCap(B, h, di, to, true, B.caps.Wt, B.caps.T))
              && BelowCap(B, h, di, to, false, B.caps.Wr, B.caps.R)
  {
    var d := B.duties[di];
    DaysOfMeans(B, h, to, false);
    RoomMeans(B, h, di, to, true, B.caps.Wt, B.caps.T);
    RoomMeans(B, h, di, to, false, B.caps.Wr, B.caps.R);
    assert DutyDays(d) == {} <==> d.start >= d.end by {
      assert d.start < d.end ==> d.start in DutyDays(d);
    }
    assert DutyDays(d) !! DaysOf(B, h, to, false)
      <==> forall t: int | d.start <= t < d.end :: !OnDuty(B, h, to, false, t);
  }

  /** n times a. */
  ghost function Times(n: nat, a: real): real {
    if n == 0 then 0.0 else Times(n - 1, a) + a
  }

  lemma {:induction false} TimesIsProduct(n: nat, a: real)
    ensures Times(n, a) == n as real * a
  {
    if n > 0 {
      TimesIsProduct(n - 1, a);
      assert n as real * a == (n - 1) as real * a + a;
    }
  }

  lemma {:induction false} TimesAdd(n: nat, a: real, b: real)
    ensures Times(n, a + b) == Times(n, a) + Times(n, b)
  {
    if n > 0 {
      TimesAdd(n - 1, a, b);
    }
  }

  lemma {:induction false} TimesOrder(n: nat, a: real, b: real)
    requires n > 0
    ensures Times(n, a) < Times(n, b) <==> a < b
  {
    if n > 1 {
      TimesOrder(n - 1, a, b);
    }
  }

  lemma ScaledDeviation(n: nat, total: int, effort: int, mean: real)
    requires Times(n, mean) == total as real
    ensures Deviation(n, total, effort) as real == Times(n, Magnitude(effort as real - mean))
  {
    var gap := effort as real - mean;
    TimesIsProduct(n, mean);
    TimesIsProduct(n, gap);
    TimesIsProduct(n, -gap);
    assert n as real * gap == n as real * effort as real - n as real * mean;
    ProductSign(n as real, gap);
  }

  lemma ProductSign(n: real, gap: real)
    requires n >= 0.0
    ensures n * -gap == -(n * gap)
    ensures gap >= 0.0 ==> n * gap >= 0.0
    ensures gap <= 0.0 ==> n * gap <= 0.0
  {
  }

  lemma {:induction false} ScaledSum(n: nat, k: nat, f: nat -> int, g: nat -> real)
    requires forall i: nat | i < k :: f(i) as real == Times(n, g(i))
    ensures Sum(k, f) as real == Times(n, RealSum(k, g))
  {
    if k == 0 {
      TimesIsProduct(n, 0.0);
    } else {
      ScaledSum(n, k - 1, f, g);
      TimesAdd(n, RealSum(k - 1, g), g(k - 1));
    }
  }

  /** The integers that the pass compares are n times the distances from the mean. */
  lemma L1IsDistance(B: Board, h: Holding, total: int, mean: real)
    requires Times(|B.soldiers|, mean) == total as real
    ensures L1(B, h, total) as real == Times(|B.soldiers|, Distance(B, h, mean))
  {
    var f, g := Deviations(|B.soldiers|, total, Efforts(B, h)), Distances(B, h, mean);
    forall i: nat | i < |B.soldiers| ensures f(i) as real == Times(|B.soldiers|, g(i)) {
      ScaledDeviation(|B.soldiers|, total, Efforts(B, h)(i), mean);
    }
    ScaledSum(|B.soldiers|, |B.soldiers|, f, g);
  }

  lemma MeanTimes(B: Board, h: Holding)
    requires B.soldiers != []
    ensures Times(|B.soldiers|, Mean(B, h)) == TotalEffort(B, h) as real
  {
    TimesIsProduct(|B.soldiers|, Mean(B, h));
  }

  lemma AboveMeanMeans(B: Board, h: Holding, si: nat)
    requires si < |B.soldiers|
    ensures AboveMean(B, EffortOf(B, h, si), TotalEffort(B, h)) <==> EffortOf(B, h, si) as real > Mean(B, h)
  {
    var n, effort := |B.soldiers|, EffortOf(B, h, si);
    MeanTimes(B, h);
    TimesOrder(n, Mean(B, h), effort as real);
    TimesIsProduct(n, effort as real);
    assert n as real * effort as real == (n * effort) as real;
  }

  lemma CloserMeans(B: Board, h: Holding, g: Holding)
    requires B.soldiers != []
    ensures L1(B, g, TotalEffort(B, h)) < L1(B, h, TotalEffort(B, h))
      <==> Distance(B, g, Mean(B, h)) < Distance(B, h, Mean(B, h))
  {
    MeanTimes(B, h);
    L1IsDistance(B, g, TotalEffort(B, h), Mean(B, h));
    L1IsDistance(B, h, TotalEffort(B, h), Mean(B, h));
    TimesOrder(|B.soldiers|, Distance(B, g, Mean(B, h)), Distance(B, h, Mean(B, h)));
  }

  /** A transfer has a gain exactly when it brings the population closer to the mean. */
  lemma GainMeansCloser(B: Board, h: Holding, di: nat, to: nat)
    requires WellFormed(B) && Assigns(B, h) && di in h && to < |B.soldiers| && to != h[di]
    ensures GainOf(B, TotalEffort(B, h), EffortOf(B, h, h[di]), EffortOf(B, h, to), h[di], di, to) > 0
      <==> Distance(B, h[di := to], Mean(B, h)) < Distance(B, h, Mean(B, h))
  {
    EffortsMoved(B, h, di, to);
    L1FallsByGain(B, h, di, to, TotalEffort(B, h));
    CloserMeans(B, h, h[di := to]);
  }

  lemma AllowedMeans(B: Board, h: Holding, di: nat, to: nat)
    requires WellFormed(B) && Assigns(B, h) && di in h && to < |B.soldiers| && to != h[di]
    ensures Candidate(B, h, h[di], di, to) && Receivable(B, h, di, to) <==> Allowed(B, h, di, to)
  {
    ReceivableMeans(B, h, di, to);
    AboveMeanMeans(B, h, h[di]);
  }

  /** The pass accepts a transfer exactly when its rules allow it and it brings efforts closer together. */
  lemma AcceptableIffHelps(B: Board, h: Holding, from: nat, di: nat, to: nat)
    requires WellFormed(B) && Assigns(B, h)
    ensures Acceptable(B, h, from, di, to) <==> di in h && h[di] == from && WouldHelp(B, h, di, to)
  {
    if di in h && h[di] == from && to < |B.soldiers| && to != from {
      AllowedMeans(B, h, di, to);
      GainMeansCloser(B, h, di, to);
    }
  }

  lemma NoTransferNothingHelps(B: Board, h: Holding)
    requires WellFormed(B) && Assigns(B, h)
    ensures NoTransfer(B, h) <==> NothingHelps(B, h)
  {
    if NoTransfer(B, h) {
      forall di: nat, to: nat ensures !WouldHelp(B, h, di, to) {
        if di in h {
          AcceptableIffHelps(B, h, h[di], di, to);
          assert NoDuty(B, h, h[di]) && NoRecipient(B, h, h[di], di);
        }
      }
    }
    if NothingHelps(B, h) {
      forall f: nat, d: nat, t: nat ensures !Acceptable(B, h, f, d, t) {
        AcceptableIffHelps(B, h, f, d, t);
      }
      forall f: nat ensures NoDuty(B, h, f) {
        forall d: nat ensures NoRecipient(B, h, f, d) {
        }
      }
    }
  }

  // ----- nobody is double-booked -----

  /** On no day does a soldier hold two duties, or a duty where he was booked beforehand. */
  ghost predicate OneDutyADay(B: Board, h: Holding)
    requires Assigns(B, h)
  {
    && (forall si: nat, t: int, di: nat, dj: nat
          | HeldDuty(B, h, si, false, t, di) && HeldDuty(B, h, si, false, t, dj) :: di == dj)
    && (forall si: nat, t: int, di: nat | si < |B.soldiers| && HeldDuty(B, h, si, false, t, di) ::
          !PublishedDuty(B, si, false, t))
  }

  lemma NoDoubleBookingMeans(B: Board, h: Holding)
    requires Assigns(B, h)
    ensures NoDoubleBooking(B, h) <==> OneDutyADay(B, h)
  {
    forall si: nat, t: int | si < |B.soldiers|
      ensures t in BookedDays(B.existing, B.soldiers[si].id, false) <==> PublishedDuty(B, si, false, t)
    {
      CalendarForm.BookedDaysMeaning(B.existing, B.soldiers[si].id, false, t);
    }
    if NoDoubleBooking(B, h) {
      forall si: nat, t: int, di: nat, dj: nat | HeldDuty(B, h, si, false, t, di) && HeldDuty(B, h, si, false, t, dj)
        ensures di == dj
      {
        assert t in DutyDays(B.duties[di]) && t in DutyDays(B.duties[dj]);
      }
      forall si: nat, t: int, di: nat | si < |B.soldiers| && HeldDuty(B, h, si, false, t, di)
        ensures !PublishedDuty(B, si, false, t)
      {
        assert t in DutyDays(B.duties[di]);
      }
    }
    if OneDutyADay(B, h) {
      forall di: nat | di in h
        ensures DutyDays(B.duties[di]) !! BookedDays(B.existing, B.soldiers[h[di]].id, false)
      {
        forall t | t in DutyDays(B.duties[di]) ensures t !in BookedDays(B.existing, B.soldiers[h[di]].id, false) {
          assert HeldDuty(B, h, h[di], false, t, di);
        }
      }
      forall di: nat, dj: nat | di in h && dj in h && di != dj && h[di] == h[dj]
        ensures DutyDays(B.duties[di]) !! DutyDays(B.duties[dj])
      {
        forall t | t in DutyDays(B.duties[di]) ensures t !in DutyDays(B.duties[dj]) {
          assert HeldDuty(B, h, h[di], false, t, di);
          assert !HeldDuty(B, h, h[di], false, t, dj);
        }
      }
    }
  }
}
