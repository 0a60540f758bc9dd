/**
 The hard constraints read off a calendar: who is busy on which day, instants in minutes, counts
 of soldiers and of days. Nothing here is shared with the emission or with its specification; the
 theorem is that both mean the same.
 */
module CalendarForm {
  import opened Domain
  import opened Sums
  import opened Sorting
  import opened HardModel
  import Carry

  // ----- the calendar -----

  ghost predicate May(P: Problem, di: nat, si: nat) {
    di < |P.duties| && si < |P.soldiers| && P.elig(P.soldiers[si].id, P.duties[di].id)
  }

  /** This chosen duty occupies its soldier on day t; reserve duties only count when asked for. */
  ghost predicate Occupies(P: Problem, x: Point, si: nat, realOnly: bool, t: int, di: nat) {
    && di < |P.duties| && (di, si) in x
    && (realOnly ==> !P.duties[di].isReserve)
    && P.duties[di].start <= t < P.duties[di].end
  }

  ghost predicate Serves(P: Problem, x: Point, si: nat, realOnly: bool, t: int) {
    exists di: nat :: Occupies(P, x, si, realOnly, t, di)
  }

  /** A booking published beforehand occupies the soldier on day t. */
  ghost predicate Published(P: Problem, si: nat, realOnly: bool, t: int)
    requires si < |P.soldiers|
  {
    exists e :: e in P.existing && e.soldier == P.soldiers[si].id && (realOnly ==> !e.isReserve) && e.start <= t < e.end
  }

  /** The days of [ws, ws + width) on which the soldier serves or was booked beforehand. */
  ghost function BusyDays(P: Problem, x: Point, si: nat, realOnly: bool, ws: int, width: nat): set<int>
    requires si < |P.soldiers|
  {
    set t | ws <= t < ws + width && (Serves(P, x, si, realOnly, t) || Published(P, si, realOnly, t))
  }

  // ----- the constraints -----

  ghost predicate ManningOk(P: Problem, x: Point, cov: Coverage, di: nat) {
    && (forall si: nat, sj: nat :: (di, si) in x && (di, sj) in x ==> si == sj)
    && (cov == Hard && (exists si: nat :: May(P, di, si)) ==> exists si: nat :: (di, si) in x)
  }

  /** How many soldiers of the node's subtree the duty is given to. */
  ghost function FromSubtree(P: Problem, x: Point, di: nat, node: Id): set<nat> {
    set si: nat | si < |P.soldiers| && (di, si) in x && node in P.soldiers[si].path
  }

  ghost predicate QuotasKept(P: Problem, x: Point, cov: Coverage, di: nat)
    requires di < |P.duties|
  {
    forall q | q in P.duties[di].nodeQuotas && exists si: nat :: May(P, di, si) && q.0 in P.soldiers[si].path ::
      cov == Hard || (exists si: nat :: (di, si) in x) ==> |FromSubtree(P, x, di, q.0)| == q.1
  }

  /** On no day does the soldier serve twice, or serve where he was booked. */
  ghost predicate OneThingADay(P: Problem, x: Point, si: nat)
    requires si < |P.soldiers|
  {
    && (forall t: int, di: nat, dj: nat | Occupies(P, x, si, false, t, di) && Occupies(P, x, si, false, t, dj) ::
          di == dj)
    && (forall t: int | Serves(P, x, si, false, t) :: !Published(P, si, false, t))
  }

  /** The minute at which the duty starts. */
  function StartMinute(d: Duty): int {
    d.start * 1440 + d.startTime
  }

  /** The minute at which it ends, on its last day; a duty whose dates are equal ends on that date. */
  function EndMinute(d: Duty): int {
    (if d.start < d.end then d.end - 1 else d.end) * 1440 + d.endTime
  }

  ghost predicate RestedAfterDuties(P: Problem, x: Point, si: nat) {
    forall di: nat, dj: nat | di < |P.duties| && dj < |P.duties| && (di, si) in x && (dj, si) in x ::
      var d, e := P.duties[di], P.duties[dj];
      (d.start < e.start || (d.start == e.start && di < dj)) && d.restHours > 0 ==>
        StartMinute(e) >= EndMinute(d) + 60 * d.restHours
  }

  ghost predicate RestedAfterBookings(P: Problem, x: Point, si: nat)
    requires si < |P.soldiers|
  {
    forall e, di: nat | e in P.existing && e.soldier == P.soldiers[si].id && di < |P.duties| && (di, si) in x ::
      e.restEnd.RestEnd? && e.restHours > 0 ==>
        StartMinute(P.duties[di]) >= e.restEnd.day * 1440 + e.restEnd.time + 60 * e.restHours
  }

  /** A window in which the soldier serves holds at most the cap of busy days. */
  ghost predicate WindowKept(P: Problem, x: Point, si: nat, realOnly: bool, ws: int, width: nat, cap: int)
    requires si < |P.soldiers|
  {
    (exists t :: ws <= t < ws + width && Serves(P, x, si, realOnly, t)) ==>
      |BusyDays(P, x, si, realOnly, ws, width)| <= cap
  }

  ghost predicate WindowsKept(P: Problem, x: Point, si: nat)
    requires si < |P.soldiers|
  {
    forall ws: int ::
      WindowKept(P, x, si, true, ws, P.caps.Wt, P.caps.T) && WindowKept(P, x, si, false, ws, P.caps.Wr, P.caps.R)
  }

  ghost predicate ServedWell(P: Problem, x: Point, si: nat)
    requires si < |P.soldiers|
  {
    && OneThingADay(P, x, si) && RestedAfterDuties(P, x, si) && RestedAfterBookings(P, x, si) && WindowsKept(P, x, si)
  }

  ghost predicate CalendarSat(P: Problem, x: Point, cov: Coverage) {
    && (forall di: nat, si: nat | (di, si) in x :: May(P, di, si))
    && (forall di: nat | di < |P.duties| :: ManningOk(P, x, cov, di) && QuotasKept(P, x, cov, di))
    && (forall si: nat | si < |P.soldiers| :: ServedWell(P, x, si))
  }

  // ----- duties -----

  lemma QuotaCountIs(P: Problem, x: Point, di: nat, node: Id)
    requires OverVariables(P, x)
    ensures QuotaCount(P, x, di, node) == |FromSubtree(P, x, di, node)|
  {
    var p := (si: nat) => (di, si) in x && Matches(P, di, node, si);
    CountIsSize(|P.soldiers|, p);
    assert FromSubtree(P, x, di, node) == set si: nat | si < |P.soldiers| && p(si);
  }

  lemma DutyMeans(P: Problem, x: Point, cov: Coverage, di: nat)
    requires OverVariables(P, x) && di < |P.duties|
    ensures DutyOk(P, x, cov, di) <==> ManningOk(P, x, cov, di) && QuotasKept(P, x, cov, di)
  {
    assert HasEligible(P, di) <==> exists si: nat :: May(P, di, si) by {
      if si: nat :| May(P, di, si) {
        assert Eligible(P, di, si);
      }
      if si: nat :| si < |P.soldiers| && Eligible(P, di, si) {
        assert May(P, di, si);
      }
    }
    forall q | q in P.duties[di].nodeQuotas
      ensures QuotaCount(P, x, di, q.0) == |FromSubtree(P, x, di, q.0)|
      ensures HasMatch(P, di, q.0) <==> exists si: nat :: May(P, di, si) && q.0 in P.soldiers[si].path
    {
      QuotaCountIs(P, x, di, q.0);
      if si: nat :| May(P, di, si) && q.0 in P.soldiers[si].path {
        assert Matches(P, di, q.0, si);
      }
      if si: nat :| si < |P.soldiers| && Matches(P, di, q.0, si) {
        assert May(P, di, si);
      }
    }
  }

  // ----- days -----

  /** Booked days are the days of the bookings that count. */
  lemma {:induction false} BookedDaysMeaning(es: seq<Existing>, id: Id, realOnly: bool, t: int)
    ensures t in BookedDays(es, id, realOnly) <==>
            exists e :: e in es && e.soldier == id && (realOnly ==> !e.isReserve) && e.start <= t < e.end
  {
    if es != [] {
      var front, last := es[..|es| - 1], es[|es| - 1];
      assert es == front + [last];
      BookedDaysMeaning(front, id, realOnly, t);
    }
  }

  lemma PublishedMeans(P: Problem, si: nat, realOnly: bool)
    requires si < |P.soldiers|
    ensures forall t :: t in BookedDays(P.existing, P.soldiers[si].id, realOnly) <==> Published(P, si, realOnly, t)
  {
    forall t ensures t in BookedDays(P.existing, P.soldiers[si].id, realOnly) <==> Published(P, si, realOnly, t) {
      BookedDaysMeaning(P.existing, P.soldiers[si].id, realOnly, t);
    }
  }

  lemma OneThingMeans(P: Problem, x: Point, si: nat)
    requires si < |P.soldiers|
    ensures NoOverlapOk(P, x, si) <==> OneThingADay(P, x, si)
  {
    PublishedMeans(P, si, false);
    if NoOverlapOk(P, x, si) {
      forall t: int, di: nat, dj: nat | Occupies(P, x, si, false, t, di) && Occupies(P, x, si, false, t, dj)
        ensures di == dj
      {
        assert t in DutyDays(P.duties[di]) && t in DutyDays(P.duties[dj]);
      }
      forall t: int | Serves(P, x, si, false, t) ensures !Published(P, si, false, t) {
        var di: nat :| Occupies(P, x, si, false, t, di);
        assert t in DutyDays(P.duties[di]);
      }
    }
    if OneThingADay(P, x, si) {
      forall di: nat | di < |P.duties| && (di, si) in x
        ensures DutyDays(P.duties[di]) !! BookedDays(P.existing, P.soldiers[si].id, false)
      {
        forall t | t in DutyDays(P.duties[di]) ensures t !in BookedDays(P.existing, P.soldiers[si].id, false) {
          assert Occupies(P, x, si, false, t, di);
          assert Serves(P, x, si, false, t);
        }
      }
      forall di: nat, dj: nat | di < dj < |P.duties| && (di, si) in x && (dj, si) in x
        ensures DutyDays(P.duties[di]) !! DutyDays(P.duties[dj])
      {
        forall t | t in DutyDays(P.duties[di]) ensures t !in DutyDays(P.duties[dj]) {
          assert Occupies(P, x, si, false, t, di);
          assert !Occupies(P, x, si, false, t, dj);
        }
      }
    }
  }

  // ----- rest -----

  /** Two duties clash exactly when the later one starts too few minutes after the earlier one's end. */
  lemma RestClashMeans(P: Problem, di: nat, dj: nat)
    requires di < |P.duties| && dj < |P.duties|
    ensures var d, e := P.duties[di], P.duties[dj];
            RestClash(P, di, dj) <==>
              && (d.start < e.start || (d.start == e.start && di < dj)) && d.restHours > 0
              && StartMinute(e) < EndMinute(d) + 60 * d.restHours
  {
  }

  lemma RestMeans(P: Problem, x: Point, si: nat)
    requires si < |P.soldiers|
    ensures RestOk(P, x, si) <==> RestedAfterDuties(P, x, si) && RestedAfterBookings(P, x, si)
  {
    forall di: nat, dj: nat | di < |P.duties| && dj < |P.duties|
      ensures RestClash(P, di, dj) <==>
              var d, e := P.duties[di], P.duties[dj];
              && (d.start < e.start || (d.start == e.start && di < dj)) && d.restHours > 0
              && StartMinute(e) < EndMinute(d) + 60 * d.restHours
    {
      RestClashMeans(P, di, dj);
    }
    assert PairedRestOk(P, x, si) <==> RestedAfterDuties(P, x, si);
    assert BookedRestOk(P, x, si) <==> RestedAfterBookings(P, x, si);
  }

  // ----- windows -----

  /** The days of the window on which one of the first n duties is served. */
  ghost function ServedIn(P: Problem, x: Point, si: nat, realOnly: bool, ws: int, width: nat, n: nat): set<int> {
    set t, di: nat | ws <= t < ws + width && di < n && Occupies(P, x, si, realOnly, t, di) :: t
  }

  lemma ServedInMeans(P: Problem, x: Point, si: nat, realOnly: bool, ws: int, width: nat, n: nat, t: int)
    ensures t in ServedIn(P, x, si, realOnly, ws, width, n) <==>
            ws <= t < ws + width && exists di: nat :: di < n && Occupies(P, x, si, realOnly, t, di)
  {
  }

  /** The days of the window that the n-th duty occupies. */
  ghost function OwnDays(P: Problem, x: Point, si: nat, realOnly: bool, ws: int, width: nat, n: nat): set<int>
    requires n < |P.duties|
  {
    if (n, si) in x && !(realOnly && P.duties[n].isReserve)
    then Between(Days(P.duties[n].start, P.duties[n].end), ws, ws + width - 1) else {}
  }

  lemma OwnDaysSize(P: Problem, x: Point, si: nat, realOnly: bool, ws: int, width: nat, n: nat)
    requires si < |P.soldiers| && n < |P.duties| && OverVariables(P, x)
    ensures |OwnDays(P, x, si, realOnly, ws, width, n)| == Contribution(P, x, si, ws, width, realOnly)(n)
  {
    Carry.BetweenDays(P.duties[n].start, P.duties[n].end, ws, width, P.duties[n]);
    assert (n, si) in x ==> Eligible(P, n, si);
  }

  lemma ServedOneMore(P: Problem, x: Point, si: nat, realOnly: bool, ws: int, width: nat, n: nat, t: int)
    requires n < |P.duties|
    ensures t in ServedIn(P, x, si, realOnly, ws, width, n + 1)
            <==> t in ServedIn(P, x, si, realOnly, ws, width, n) || t in OwnDays(P, x, si, realOnly, ws, width, n)
  {
    ServedInMeans(P, x, si, realOnly, ws, width, n, t);
    ServedInMeans(P, x, si, realOnly, ws, width, n + 1, t);
    assert t in OwnDays(P, x, si, realOnly, ws, width, n)
      <==> ws <= t < ws + width && Occupies(P, x, si, realOnly, t, n);
  }

  lemma OwnDaysAreNew(P: Problem, x: Point, si: nat, realOnly: bool, ws: int, width: nat, n: nat, t: int)
    requires si < |P.soldiers| && n < |P.duties| && OneThingADay(P, x, si)
    requires t in OwnDays(P, x, si, realOnly, ws, width, n)
    ensures t !in ServedIn(P, x, si, realOnly, ws, width, n)
  {
    ServedInMeans(P, x, si, realOnly, ws, width, n, t);
    assert Occupies(P, x, si, false, t, n);
    if di: nat :| di < n && Occupies(P, x, si, realOnly, t, di) {
      assert Occupies(P, x, si, false, t, di);
    }
  }

  /** One more duty adds its own days of the window, and none that were served already. */
  lemma OneMoreServed(P: Problem, x: Point, si: nat, realOnly: bool, ws: int, width: nat, n: nat)
    requires si < |P.soldiers| && n < |P.duties| && OverVariables(P, x) && OneThingADay(P, x, si)
    ensures |ServedIn(P, x, si, realOnly, ws, width, n + 1)|
            == |ServedIn(P, x, si, realOnly, ws, width, n)| + Contribution(P, x, si, ws, width, realOnly)(n)
  {
    var before, own := ServedIn(P, x, si, realOnly, ws, width, n), OwnDays(P, x, si, realOnly, ws, width, n);
    forall t ensures t in ServedIn(P, x, si, realOnly, ws, width, n + 1) <==> t in before + own {
      ServedOneMore(P, x, si, realOnly, ws, width, n, t);
    }
    forall t | t in own ensures t !in before {
      OwnDaysAreNew(P, x, si, realOnly, ws, width, n, t);
    }
    assert ServedIn(P, x, si, realOnly, ws, width, n + 1) == before + own;
    OwnDaysSize(P, x, si, realOnly, ws, width, n);
  }

  lemma {:induction false} NewDaysCount(P: Problem, x: Point, si: nat, realOnly: bool, ws: int, width: nat,
                                         f: nat -> int, n: nat)
    requires si < |P.soldiers| && n <= |P.duties| && OverVariables(P, x) && OneThingADay(P, x, si)
    requires f == Contribution(P, x, si, ws, width, realOnly)
    ensures Sum(n, f) == |ServedIn(P, x, si, realOnly, ws, width, n)|
  {
    if n == 0 {
      assert ServedIn(P, x, si, realOnly, ws, width, 0) == {};
    } else {
      NewDaysCount(P, x, si, realOnly, ws, width, f, n - 1);
      OneMoreServed(P, x, si, realOnly, ws, width, n - 1);
    }
  }

  lemma ServedAre(P: Problem, x: Point, si: nat, realOnly: bool, ws: int, width: nat)
    ensures forall t :: t in ServedIn(P, x, si, realOnly, ws, width, |P.duties|)
                        <==> ws <= t < ws + width && Serves(P, x, si, realOnly, t)
  {
    forall t ensures t in ServedIn(P, x, si, realOnly, ws, width, |P.duties|)
                     <==> ws <= t < ws + width && Serves(P, x, si, realOnly, t)
    {
      ServedInMeans(P, x, si, realOnly, ws, width, |P.duties|, t);
      if di: nat :| Occupies(P, x, si, realOnly, t, di) {
        assert di < |P.duties|;
      }
    }
  }

  lemma ServedIsNotPublished(P: Problem, x: Point, si: nat, realOnly: bool, t: int)
    requires si < |P.soldiers| && OneThingADay(P, x, si) && Serves(P, x, si, realOnly, t)
    ensures !Published(P, si, realOnly, t)
  {
    var di: nat :| Occupies(P, x, si, realOnly, t, di);
    assert Occupies(P, x, si, false, t, di);
    assert Serves(P, x, si, false, t);
    assert Published(P, si, realOnly, t) ==> Published(P, si, false, t);
  }

  lemma BusySplit(P: Problem, x: Point, si: nat, realOnly: bool, ws: int, width: nat, served: set<int>,
                  booked: set<int>)
    requires si < |P.soldiers| && OneThingADay(P, x, si)
    requires forall t :: t in served <==> ws <= t < ws + width && Serves(P, x, si, realOnly, t)
    requires forall t :: t in booked <==> ws <= t < ws + width && Published(P, si, realOnly, t)
    ensures |BusyDays(P, x, si, realOnly, ws, width)| == |served| + |booked|
  {
    assert BusyDays(P, x, si, realOnly, ws, width) == served + booked;
    forall t | t in served ensures t !in booked {
      ServedIsNotPublished(P, x, si, realOnly, t);
    }
  }

  lemma NoneServed(P: Problem, x: Point, si: nat, realOnly: bool, ws: int, width: nat, served: set<int>)
    requires forall t :: t in served <==> ws <= t < ws + width && Serves(P, x, si, realOnly, t)
    ensures |served| == 0 <==> !exists t :: ws <= t < ws + width && Serves(P, x, si, realOnly, t)
  {
    if served != {} {
      var t := SomeMember(served);
      assert Serves(P, x, si, realOnly, t);
    }
  }

  /** The busy days of a window are the new ones and the booked ones, none of them twice. */
  lemma BusyDaysCount(P: Problem, x: Point, si: nat, realOnly: bool, ws: int, width: nat)
    requires si < |P.soldiers| && OverVariables(P, x) && OneThingADay(P, x, si)
    ensures |BusyDays(P, x, si, realOnly, ws, width)|
            == NewDays(P, x, si, ws, width, realOnly) + OldDays(P, si, ws, width, realOnly)
    ensures NewDays(P, x, si, ws, width, realOnly) == 0
            <==> !exists t :: ws <= t < ws + width && Serves(P, x, si, realOnly, t)
  {
    var served := ServedIn(P, x, si, realOnly, ws, width, |P.duties|);
    var booked := Between(BookedDays(P.existing, P.soldiers[si].id, realOnly), ws, ws + width - 1);
    NewDaysCount(P, x, si, realOnly, ws, width, Contribution(P, x, si, ws, width, realOnly), |P.duties|);
    ServedAre(P, x, si, realOnly, ws, width);
    PublishedMeans(P, si, realOnly);
    BusySplit(P, x, si, realOnly, ws, width, served, booked);
    NoneServed(P, x, si, realOnly, ws, width, served);
  }

  lemma WindowMeans(P: Problem, x: Point, si: nat, realOnly: bool, ws: int, width: nat, cap: int)
    requires si < |P.soldiers| && OverVariables(P, x) && OneThingADay(P, x, si)
    ensures WindowFits(P, x, si, ws, width, realOnly, cap) <==> WindowKept(P, x, si, realOnly, ws, width, cap)
  {
    BusyDaysCount(P, x, si, realOnly, ws, width);
  }

  lemma WindowsMean(P: Problem, x: Point, si: nat)
    requires si < |P.soldiers| && OverVariables(P, x) && OneThingADay(P, x, si)
    ensures DensityOk(P, x, si) <==> WindowsKept(P, x, si)
  {
    forall ws: int
      ensures WindowFits(P, x, si, ws, P.caps.Wt, true, P.caps.T)
              <==> WindowKept(P, x, si, true, ws, P.caps.Wt, P.caps.T)
      ensures WindowFits(P, x, si, ws, P.caps.Wr, false, P.caps.R)
              <==> WindowKept(P, x, si, false, ws, P.caps.Wr, P.caps.R)
    {
      WindowMeans(P, x, si, true, ws, P.caps.Wt, P.caps.T);
      WindowMeans(P, x, si, false, ws, P.caps.Wr, P.caps.R);
    }
  }

  lemma SoldierMeans(P: Problem, x: Point, si: nat)
    requires si < |P.soldiers| && OverVariables(P, x)
    ensures SoldierOk(P, x, si) <==> ServedWell(P, x, si)
  {
    OneThingMeans(P, x, si);
    RestMeans(P, x, si);
    if OneThingADay(P, x, si) {
      WindowsMean(P, x, si);
    }
  }

  // ----- the theorem -----

  /** The hard constraints hold exactly when the calendar says so. */
  lemma HardSatMeans(P: Problem, x: Point, cov: Coverage)
    ensures HardSat(P, x, cov) <==> CalendarSat(P, x, cov)
  {
    assert OverVariables(P, x) <==> forall di: nat, si: nat | (di, si) in x :: May(P, di, si) by {
      if forall di: nat, si: nat | (di, si) in x :: May(P, di, si) {
        forall di: nat, si: nat | (di, si) in x ensures Eligible(P, di, si) {
          assert May(P, di, si);
        }
      }
      if OverVariables(P, x) {
        forall di: nat, si: nat | (di, si) in x ensures May(P, di, si) {
          assert Eligible(P, di, si);
        }
      }
    }
    if OverVariables(P, x) {
      forall di: nat | di < |P.duties|
        ensures DutyOk(P, x, cov, di) <==> ManningOk(P, x, cov, di) && QuotasKept(P, x, cov, di)
      {
        DutyMeans(P, x, cov, di);
      }
      forall si: nat | si < |P.soldiers| ensures SoldierOk(P, x, si) <==> ServedWell(P, x, si) {
        SoldierMeans(P, x, si);
      }
    }
  }

  /** Two chosen duties of one soldier: the later one starts when the rest after the earlier one's last day is over. */
  lemma RestBetweenDuties(P: Problem, x: Point, cov: Coverage, di: nat, dj: nat, si: nat)
    requires HardSat(P, x, cov) && (di, si) in x && (dj, si) in x && di < |P.duties| && dj < |P.duties|
    requires P.duties[di].start < P.duties[dj].start || (P.duties[di].start == P.duties[dj].start && di < dj)
    requires P.duties[di].start < P.duties[di].end && P.duties[di].restHours > 0
    ensures P.duties[dj].start * 1440 + P.duties[dj].startTime
            >= (P.duties[di].end - 1) * 1440 + P.duties[di].endTime + 60 * P.duties[di].restHours
  {
    HardSatMeans(P, x, cov);
    assert May(P, di, si);
    assert ServedWell(P, x, si);
    assert RestedAfterDuties(P, x, si);
  }
}
