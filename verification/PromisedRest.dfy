/**
 Rest around published bookings: what the model promises, a soldier's rest between each duty and
 his next one, against what it asks for, that he starts nothing before the rest after any booking
 is over, not even long before that booking begins.
 */
module PromisedRest {
  import opened Domain
  import opened Sums
  import opened Sorting
  import opened HardModel
  import opened Carry

  // ----- the promise -----

  /** The booking starts on a later day than the duty. */
  predicate Ahead(e: Existing, d: Duty) {
    d.start < e.start
  }

  /** The duty starts before the rest after a booking that does not lie ahead is over. */
  predicate TooSoonAfter(e: Existing, soldier: Id, d: Duty) {
    !Ahead(e, d) && ClashesWithBooking(e, soldier, d)
  }

  /**
   A booking ahead starts before the rest after the duty is over. Bookings reach the engine
   without the time of day at which they start, so that is given beside them.
   */
  predicate TooSoonBefore(e: Existing, soldier: Id, d: Duty, startsAt: Existing -> int) {
    e.soldier == soldier && Ahead(e, d) && RestViolated(DutyEnd(d), e.start, startsAt(e), d.restHours)
  }

  ghost predicate RestedAfter(P: Problem, x: Point, si: nat)
    requires si < |P.soldiers|
  {
    forall e, di: nat | e in P.existing && di < |P.duties| && (di, si) in x ::
      !TooSoonAfter(e, P.soldiers[si].id, P.duties[di])
  }

  ghost predicate RestedBefore(P: Problem, x: Point, si: nat, startsAt: Existing -> int)
    requires si < |P.soldiers|
  {
    forall e, di: nat | e in P.existing && di < |P.duties| && (di, si) in x ::
      !TooSoonBefore(e, P.soldiers[si].id, P.duties[di], startsAt)
  }

  /** The hard constraints with the promised rest in place of the emitted one. */
  ghost predicate PromisedSat(P: Problem, x: Point, cov: Coverage, startsAt: Existing -> int) {
    && OverVariables(P, x)
    && (forall di: nat | di < |P.duties| :: DutyOk(P, x, cov, di))
    && (forall si: nat | si < |P.soldiers| :: PromisedSoldierOk(P, x, si, startsAt))
  }

  ghost predicate PromisedSoldierOk(P: Problem, x: Point, si: nat, startsAt: Existing -> int)
    requires si < |P.soldiers|
  {
    && NoOverlapOk(P, x, si) && DensityOk(P, x, si) && PairedRestOk(P, x, si)
    && RestedAfter(P, x, si) && RestedBefore(P, x, si, startsAt)
  }

  // ----- what is asked for beyond the promise -----

  ghost predicate Clashes(P: Problem, si: nat, di: nat)
    requires si < |P.soldiers| && di < |P.duties|
  {
    exists e :: e in P.existing && ClashesWithBooking(e, P.soldiers[si].id, P.duties[di])
  }

  ghost predicate ClashesBehind(P: Problem, si: nat, di: nat)
    requires si < |P.soldiers| && di < |P.duties|
  {
    exists e :: e in P.existing && TooSoonAfter(e, P.soldiers[si].id, P.duties[di])
  }

  ghost predicate ClashesAhead(P: Problem, si: nat, di: nat)
    requires si < |P.soldiers| && di < |P.duties|
  {
    exists e :: e in P.existing && Ahead(e, P.duties[di]) && ClashesWithBooking(e, P.soldiers[si].id, P.duties[di])
  }

  lemma OneChoice(P: Problem, si: nat, di: nat)
    requires si < |P.soldiers| && Eligible(P, di, si)
    ensures OverVariables(P, {(di, si)})
    ensures BookedRestOk(P, {(di, si)}, si) <==> !Clashes(P, si, di)
    ensures RestedAfter(P, {(di, si)}, si) <==> !ClashesBehind(P, si, di)
  {
    assert (di, si) in {(di, si)};
  }

  lemma ChoiceByChoice(P: Problem, x: Point, si: nat)
    requires si < |P.soldiers| && OverVariables(P, x)
    ensures BookedRestOk(P, x, si) <==> forall di: nat | (di, si) in x && di < |P.duties| :: !Clashes(P, si, di)
    ensures RestedAfter(P, x, si) <==> forall di: nat | (di, si) in x && di < |P.duties| :: !ClashesBehind(P, si, di)
  {
  }

  lemma ClashesSplit(P: Problem, si: nat, di: nat)
    requires si < |P.soldiers| && di < |P.duties|
    ensures Clashes(P, si, di) <==> ClashesBehind(P, si, di) || ClashesAhead(P, si, di)
  {
    if e :| e in P.existing && ClashesWithBooking(e, P.soldiers[si].id, P.duties[di]) {
      assert TooSoonAfter(e, P.soldiers[si].id, P.duties[di]) || Ahead(e, P.duties[di]);
    }
  }

  /**
   The emitted constraints ask for the rest after bookings and nothing more exactly when every
   duty of the soldier that clashes with a booking ahead also clashes with one that is not.
   */
  lemma BookedRestAsPromisedIff(P: Problem, si: nat)
    requires si < |P.soldiers|
    ensures (forall x: Point | OverVariables(P, x) :: BookedRestOk(P, x, si) <==> RestedAfter(P, x, si))
       <==> (forall di: nat | Eligible(P, di, si) && ClashesAhead(P, si, di) :: ClashesBehind(P, si, di))
  {
    if forall x: Point | OverVariables(P, x) :: BookedRestOk(P, x, si) <==> RestedAfter(P, x, si) {
      forall di: nat | Eligible(P, di, si) && ClashesAhead(P, si, di) ensures ClashesBehind(P, si, di) {
        OneChoice(P, si, di);
        ClashesSplit(P, si, di);
      }
    }
    if forall di: nat | Eligible(P, di, si) && ClashesAhead(P, si, di) :: ClashesBehind(P, si, di) {
      forall x: Point | OverVariables(P, x) ensures BookedRestOk(P, x, si) <==> RestedAfter(P, x, si) {
        ChoiceByChoice(P, x, si);
        forall di: nat | (di, si) in x && di < |P.duties| ensures Clashes(P, si, di) <==> ClashesBehind(P, si, di) {
          assert Eligible(P, di, si);
          ClashesSplit(P, si, di);
        }
      }
    }
  }

  // ----- what is promised beyond what is asked for -----

  ghost predicate EndsTooLate(P: Problem, si: nat, di: nat, startsAt: Existing -> int)
    requires si < |P.soldiers| && di < |P.duties|
  {
    exists e :: e in P.existing && TooSoonBefore(e, P.soldiers[si].id, P.duties[di], startsAt)
  }

  /**
   Nothing in the model looks at the rest before a booking. It is kept all the same exactly when
   every duty of the soldier that ends too late for a booking ahead clashes with some booking.
   */
  lemma RestBeforeBookingsIff(P: Problem, si: nat, startsAt: Existing -> int)
    requires si < |P.soldiers|
    ensures (forall x: Point | OverVariables(P, x) && BookedRestOk(P, x, si) :: RestedBefore(P, x, si, startsAt))
       <==> (forall di: nat | Eligible(P, di, si) && EndsTooLate(P, si, di, startsAt) :: Clashes(P, si, di))
  {
    if forall x: Point | OverVariables(P, x) && BookedRestOk(P, x, si) :: RestedBefore(P, x, si, startsAt) {
      forall di: nat | Eligible(P, di, si) && EndsTooLate(P, si, di, startsAt) ensures Clashes(P, si, di) {
        OneChoice(P, si, di);
        assert (di, si) in {(di, si)};
      }
    }
    if forall di: nat | Eligible(P, di, si) && EndsTooLate(P, si, di, startsAt) :: Clashes(P, si, di) {
      forall x: Point | OverVariables(P, x) && BookedRestOk(P, x, si) ensures RestedBefore(P, x, si, startsAt) {
        ChoiceByChoice(P, x, si);
        forall e, di: nat | e in P.existing && di < |P.duties| && (di, si) in x
          ensures !TooSoonBefore(e, P.soldiers[si].id, P.duties[di], startsAt)
        {
          assert Eligible(P, di, si);
          assert !Clashes(P, si, di);
          assert !EndsTooLate(P, si, di, startsAt);
        }
      }
    }
  }

  // ----- bookings that carry a rest requirement -----

  /** A booking with a rest requirement whose end is known and not before its first day. */
  ghost predicate Resting(e: Existing) {
    e.restHours > 0 && e.restEnd.RestEnd? && e.restEnd.day >= e.start && e.restEnd.time >= 0
  }

  /** It clashes with every duty that it lies ahead of, by one day or by a hundred. */
  lemma RestingClashesAhead(e: Existing, soldier: Id, d: Duty)
    requires Resting(e) && e.soldier == soldier && Ahead(e, d) && ClockTime(d.startTime)
    ensures ClashesWithBooking(e, soldier, d)
  {
  }

  /** So no choice that meets the hard constraints gives a soldier a duty before any of his resting bookings. */
  lemma NothingBeforeRestingBooking(P: Problem, x: Point, cov: Coverage, si: nat, di: nat, e: Existing)
    requires HardSat(P, x, cov) && (di, si) in x && si < |P.soldiers|
    requires e in P.existing && e.soldier == P.soldiers[si].id && Resting(e)
    requires forall d | d in P.duties :: ClockTime(d.startTime)
    ensures di < |P.duties| && e.start <= P.duties[di].start
  {
    assert Eligible(P, di, si);
    assert P.duties[di] in P.duties;
    assert SoldierOk(P, x, si);
    assert BookedRestOk(P, x, si);
    if Ahead(e, P.duties[di]) {
      RestingClashesAhead(e, P.soldiers[si].id, P.duties[di]);
    }
  }

  // ----- rest between batches -----

  /** As far as days and rest after bookings go, the soldier can take the duty on top of these bookings. */
  ghost predicate CanTake(P: Problem, es: seq<Existing>, si: nat, di: nat) {
    && Eligible(P, di, si)
    && DutyDays(P.duties[di]) !! BookedDays(es, P.soldiers[si].id, false)
    && forall e | e in es :: !ClashesWithBooking(e, P.soldiers[si].id, P.duties[di])
  }

  /** The booking that a batch leaves behind keeps its days and asks for no rest. */
  lemma CarriedAsksNoRest(P: Problem, es: seq<Existing>, si: nat, di: nat, dj: nat)
    requires Eligible(P, di, si) && Eligible(P, dj, si)
    ensures CanTake(P, es + [BookingOf(P.soldiers[si].id, P.duties[di])], si, dj)
       <==> CanTake(P, es, si, dj) && DutyDays(P.duties[di]) !! DutyDays(P.duties[dj])
  {
    var booking := BookingOf(P.soldiers[si].id, P.duties[di]);
    BookedDaysAppend(es, booking, P.soldiers[si].id, false);
    assert !ClashesWithBooking(booking, P.soldiers[si].id, P.duties[dj]);
    if CanTake(P, es + [booking], si, dj) {
      forall e | e in es ensures !ClashesWithBooking(e, P.soldiers[si].id, P.duties[dj]) {
        assert e in es + [booking];
      }
    }
  }

  predicate ClashEitherWay(P: Problem, di: nat, dj: nat) {
    di < |P.duties| && dj < |P.duties| && (RestClash(P, di, dj) || RestClash(P, dj, di))
  }

  /** Both can be taken, the first in an earlier batch. */
  ghost predicate TakesInTurn(P: Problem, es: seq<Existing>, si: nat, di: nat, dj: nat) {
    && CanTake(P, es, si, di)
    && CanTake(P, es + [BookingOf(P.soldiers[si].id, P.duties[di])], si, dj)
  }

  /**
   Rest between a duty booked by one batch and a duty of a later batch is kept exactly when every
   pair that clashes, and that one soldier could take, shares a day.
   */
  lemma RestAcrossBatchesIff(P: Problem, es: seq<Existing>, earlier: seq<nat>, later: seq<nat>)
    ensures (forall di, dj, si: nat | di in earlier && dj in later && TakesInTurn(P, es, si, di, dj) ::
               !ClashEitherWay(P, di, dj))
       <==> (forall di, dj, si: nat | di in earlier && dj in later && CanTake(P, es, si, di) && CanTake(P, es, si, dj)
                                      && ClashEitherWay(P, di, dj) ::
               !(DutyDays(P.duties[di]) !! DutyDays(P.duties[dj])))
  {
    forall di, dj, si: nat | di in earlier && dj in later && CanTake(P, es, si, di) && Eligible(P, dj, si)
      ensures TakesInTurn(P, es, si, di, dj)
              <==> CanTake(P, es, si, dj) && DutyDays(P.duties[di]) !! DutyDays(P.duties[dj])
    {
      CarriedAsksNoRest(P, es, si, di, dj);
    }
  }

  /** Day 0 until the afternoon with a day of rest after it, and the next morning. */
  ghost predicate BackToBack(P: Problem) {
    && |P.soldiers| == 1 && |P.duties| == 2 && P.existing == []
    && P.duties[0].start == 0 && P.duties[0].end == 1 && P.duties[0].endTime == 960 && P.duties[0].restHours == 24
    && P.duties[1].start == 1 && P.duties[1].end == 2 && P.duties[1].startTime == 480
    && Eligible(P, 0, 0) && Eligible(P, 1, 0)
  }

  /** One solve never assigns both duties; two batches in turn can. */
  lemma RestLostBetweenBatches(P: Problem, x: Point, cov: Coverage)
    requires BackToBack(P)
    ensures (0, 0) in x && (1, 0) in x ==> !HardSat(P, x, cov)
    ensures TakesInTurn(P, [], 0, 0, 1) && ClashEitherWay(P, 0, 1)
  {
    assert RestClash(P, 0, 1);
    assert CanTake(P, [], 0, 0) && CanTake(P, [], 0, 1);
    CarriedAsksNoRest(P, [], 0, 0, 1);
    if HardSat(P, x, cov) {
      assert SoldierOk(P, x, 0);
      assert PairedRestOk(P, x, 0);
    }
  }

  // ----- a booking a month ahead -----

  /** One soldier, one duty on day 1, and a booking on day 30 with the usual twelve hours of rest. */
  function MonthAhead(): Problem {
    Problem([Soldier(0, {}, 0, 1)],
            [Duty(0, 0, 1, 2, 480, 960, 1.0, false, [], 12)],
            [Existing(0, 30, 31, false, 12, RestEnd(30, 960))],
            Caps(8, 14, 15, 28), (s: Id, d: Id) => true)
  }

  const SERVES: Point := {(0, 0)}

  lemma MonthAheadDays(P: Problem, realOnly: bool)
    requires P == MonthAhead()
    ensures BookedDays(P.existing, 0, realOnly) == {30}
  {
    var none: seq<Existing> := [];
    assert P.existing == none + [P.existing[0]];
    BookedDaysAppend(none, P.existing[0], 0, realOnly);
  }

  lemma MonthAheadWindow(P: Problem, ws: int, width: nat, realOnly: bool, cap: int)
    requires P == MonthAhead() && cap >= 2
    ensures WindowFits(P, SERVES, 0, ws, width, realOnly, cap)
  {
    var f := Contribution(P, SERVES, 0, ws, width, realOnly);
    assert Sum(0, f) == 0 && Sum(1, f) == f(0) <= 1;
    MonthAheadDays(P, realOnly);
    AtMostOne(30, ws, ws + width - 1);
  }

  lemma AtMostOne(t: int, lo: int, hi: int)
    ensures |Between({t}, lo, hi)| <= 1
  {
    SubsetSize(Between({t}, lo, hi), {t});
  }

  /** The only way to serve the duty keeps every promised rest, and the model has no solution. */
  lemma MonthAheadInfeasible(P: Problem, startsAt: Existing -> int)
    requires P == MonthAhead() && forall e: Existing :: ClockTime(startsAt(e))
    ensures PromisedSat(P, SERVES, Hard, startsAt)
    ensures forall x: Point :: !HardSat(P, x, Hard)
  {
    MonthAheadPromised(P, startsAt);
    forall x: Point ensures !HardSat(P, x, Hard) {
      if HardSat(P, x, Hard) {
        assert DutyOk(P, x, Hard, 0) && Eligible(P, 0, 0);
        var si: nat :| (0, si) in x;
        assert Eligible(P, 0, si);
        NothingBeforeRestingBooking(P, x, Hard, si, 0, P.existing[0]);
      }
    }
  }

  lemma MonthAheadPromised(P: Problem, startsAt: Existing -> int)
    requires P == MonthAhead() && forall e: Existing :: ClockTime(startsAt(e))
    ensures PromisedSat(P, SERVES, Hard, startsAt)
  {
    MonthAheadCovered(P);
    MonthAheadDense(P);
    MonthAheadRested(P, startsAt);
    assert PromisedSoldierOk(P, SERVES, 0, startsAt);
    OneOfEach(P, SERVES, Hard, startsAt);
  }

  lemma OneOfEach(P: Problem, x: Point, cov: Coverage, startsAt: Existing -> int)
    requires |P.duties| == 1 && |P.soldiers| == 1 && OverVariables(P, x)
    requires DutyOk(P, x, cov, 0) && PromisedSoldierOk(P, x, 0, startsAt)
    ensures PromisedSat(P, x, cov, startsAt)
  {
    forall di: nat | di < |P.duties| ensures DutyOk(P, x, cov, di) {
      assert di == 0;
    }
    forall si: nat | si < |P.soldiers| ensures PromisedSoldierOk(P, x, si, startsAt) {
      assert si == 0;
    }
  }

  lemma MonthAheadCovered(P: Problem)
    requires P == MonthAhead()
    ensures OverVariables(P, SERVES) && DutyOk(P, SERVES, Hard, 0) && NoOverlapOk(P, SERVES, 0)
  {
    assert (0, 0) in SERVES && Eligible(P, 0, 0) && Covered(SERVES, 0);
    MonthAheadDays(P, false);
  }

  lemma MonthAheadDense(P: Problem)
    requires P == MonthAhead()
    ensures DensityOk(P, SERVES, 0)
  {
    forall ws: int ensures WindowFits(P, SERVES, 0, ws, 14, true, 8) && WindowFits(P, SERVES, 0, ws, 28, false, 15) {
      MonthAheadWindow(P, ws, 14, true, 8);
      MonthAheadWindow(P, ws, 28, false, 15);
    }
  }

  lemma MonthAheadRested(P: Problem, startsAt: Existing -> int)
    requires P == MonthAhead() && forall e: Existing :: ClockTime(startsAt(e))
    ensures PairedRestOk(P, SERVES, 0) && RestedAfter(P, SERVES, 0) && RestedBefore(P, SERVES, 0, startsAt)
  {
  }
}
