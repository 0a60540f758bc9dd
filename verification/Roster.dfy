/**
 What a run's roster means on the calendar: the picks of all batches together with the bookings
 published beforehand, without the bookings that the run carries from batch to batch.
 */
module Roster {
  import opened Domain
  import opened Sorting
  import opened HardModel
  import opened Relaxation
  import opened Carry
  import opened InterleavedRun
  import opened CalendarForm

  /** The picks as a choice. */
  function Chosen(picks: seq<(nat, nat)>): Point {
    set i: nat | i < |picks| :: picks[i]
  }

  /** No window holds more than one of the caps allows, unless it did so beforehand. */
  ghost predicate NoFullerThan(P: Problem, x: Point, si: nat, realOnly: bool, ws: int, width: nat, base: int, top: int)
    requires si < |P.soldiers|
  {
    var days := |BusyDays(P, x, si, realOnly, ws, width)|;
    days <= base || days <= top || days <= |BusyDays(P, {}, si, realOnly, ws, width)|
  }

  ghost predicate WindowsBounded(P: Problem, c: Ceilings, x: Point, si: nat)
    requires si < |P.soldiers|
  {
    forall ws: int ::
      && NoFullerThan(P, x, si, true, ws, P.caps.Wt, P.caps.T, c.T)
      && NoFullerThan(P, x, si, false, ws, P.caps.Wr, P.caps.R, c.R)
  }

  /**
   Duties go to eligible soldiers, each at most once; nobody serves twice on a day or on a day on
   which he was booked, or before the rest after such a booking is over; and windows hold no more
   than base caps, ceilings or earlier bookings account for, real days under T and all days under R.
   */
  ghost predicate GoodRoster(P: Problem, c: Ceilings, picks: seq<(nat, nat)>) {
    && (forall i | 0 <= i < |picks| :: May(P, picks[i].0, picks[i].1))
    && (forall i, j | 0 <= i < j < |picks| :: picks[i].0 != picks[j].0)
    && (forall si: nat | si < |P.soldiers| ::
          && OneThingADay(P, Chosen(picks), si)
          && RestedAfterBookings(P, Chosen(picks), si)
          && WindowsBounded(P, c, Chosen(picks), si))
  }

  // ----- the carried bookings -----

  ghost predicate CarriedOn(P: Problem, picks: seq<(nat, nat)>, id: Id, realOnly: bool, t: int, i: nat)
    requires Within(P, picks)
  {
    && i < |picks| && P.soldiers[picks[i].1].id == id
    && (realOnly ==> !P.duties[picks[i].0].isReserve)
    && P.duties[picks[i].0].start <= t < P.duties[picks[i].0].end
  }

  lemma CarriedMeans(P: Problem, picks: seq<(nat, nat)>, id: Id, realOnly: bool, t: int)
    requires Within(P, picks)
    ensures t in BookedDays(Bookings(P, picks), id, realOnly) <==>
            exists i: nat :: CarriedOn(P, picks, id, realOnly, t, i)
  {
    var es := Bookings(P, picks);
    BookedDaysMeaning(es, id, realOnly, t);
    if e :| e in es && e.soldier == id && (realOnly ==> !e.isReserve) && e.start <= t < e.end {
      var i: nat :| i < |es| && es[i] == e;
      assert CarriedOn(P, picks, id, realOnly, t, i);
    }
    if i: nat :| CarriedOn(P, picks, id, realOnly, t, i) {
      assert es[i] in es;
    }
  }

  /** What is booked once the picks are carried are the published days and the picked duties' days. */
  lemma CarryIsCalendar(P: Problem, picks: seq<(nat, nat)>, si: nat, realOnly: bool, t: int)
    requires Within(P, picks) && DistinctSoldiers(P) && si < |P.soldiers|
    ensures t in BookedDays(P.existing + Bookings(P, picks), P.soldiers[si].id, realOnly)
            <==> Serves(P, Chosen(picks), si, realOnly, t) || Published(P, si, realOnly, t)
  {
    var id := P.soldiers[si].id;
    var es := Bookings(P, picks);
    BookedDaysMeaning(P.existing + es, id, realOnly, t);
    BookedDaysMeaning(es, id, realOnly, t);
    CarriedMeans(P, picks, id, realOnly, t);
    if di: nat :| Occupies(P, Chosen(picks), si, realOnly, t, di) {
      var i: nat :| i < |picks| && picks[i] == (di, si);
      assert CarriedOn(P, picks, id, realOnly, t, i);
    }
    if i: nat :| CarriedOn(P, picks, id, realOnly, t, i) {
      SameSoldier(P, picks[i].1, si);
      assert picks[i] == (picks[i].0, si) && picks[i] in Chosen(picks);
      assert Occupies(P, Chosen(picks), si, realOnly, t, picks[i].0);
    }
  }

  /** So a window's load is the number of days on which the soldier is busy. */
  lemma LoadIsBusyDays(P: Problem, picks: seq<(nat, nat)>, si: nat, realOnly: bool, ws: int, width: nat)
    requires Within(P, picks) && DistinctSoldiers(P) && si < |P.soldiers|
    ensures WindowLoad(P.existing + Bookings(P, picks), P.soldiers[si].id, realOnly, ws, width)
            == |BusyDays(P, Chosen(picks), si, realOnly, ws, width)|
  {
    var booked := BookedDays(P.existing + Bookings(P, picks), P.soldiers[si].id, realOnly);
    forall t ensures t in booked <==> Serves(P, Chosen(picks), si, realOnly, t) || Published(P, si, realOnly, t) {
      CarryIsCalendar(P, picks, si, realOnly, t);
    }
    assert Between(booked, ws, ws + width - 1) == BusyDays(P, Chosen(picks), si, realOnly, ws, width);
  }

  lemma LoadBeforehand(P: Problem, si: nat, realOnly: bool, ws: int, width: nat)
    requires DistinctSoldiers(P) && si < |P.soldiers|
    ensures WindowLoad(P.existing, P.soldiers[si].id, realOnly, ws, width)
            == |BusyDays(P, {}, si, realOnly, ws, width)|
  {
    LoadIsBusyDays(P, [], si, realOnly, ws, width);
    assert Chosen([]) == {} && P.existing + Bookings(P, []) == P.existing;
  }

  lemma BoundedOnCalendar(P: Problem, c: Ceilings, picks: seq<(nat, nat)>, si: nat)
    requires Within(P, picks) && DistinctSoldiers(P) && si < |P.soldiers|
    requires DensityBounded(P, c, P.existing + Bookings(P, picks))
    ensures WindowsBounded(P, c, Chosen(picks), si)
  {
    forall ws: int
      ensures NoFullerThan(P, Chosen(picks), si, true, ws, P.caps.Wt, P.caps.T, c.T)
      ensures NoFullerThan(P, Chosen(picks), si, false, ws, P.caps.Wr, P.caps.R, c.R)
    {
      assert WindowBounded(P, c, P.existing + Bookings(P, picks), P.soldiers[si].id, ws);
      LoadIsBusyDays(P, picks, si, true, ws, P.caps.Wt);
      LoadIsBusyDays(P, picks, si, false, ws, P.caps.Wr);
      LoadBeforehand(P, si, true, ws, P.caps.Wt);
      LoadBeforehand(P, si, false, ws, P.caps.Wr);
    }
  }

  lemma PickOf(picks: seq<(nat, nat)>, di: nat, si: nat) returns (i: nat)
    requires (di, si) in Chosen(picks)
    ensures i < |picks| && picks[i] == (di, si)
  {
    i :| i < |picks| && picks[i] == (di, si);
  }

  lemma ServedOnce(P: Problem, picks: seq<(nat, nat)>, si: nat, t: int, di: nat, dj: nat)
    requires Within(P, picks) && FreeWhenBooked(P, picks)
    requires Occupies(P, Chosen(picks), si, false, t, di) && Occupies(P, Chosen(picks), si, false, t, dj)
    ensures di == dj
  {
    var i := PickOf(picks, di, si);
    var j := PickOf(picks, dj, si);
    assert t in DutyDays(P.duties[di]) && t in DutyDays(P.duties[dj]);
    if i < j {
      NeverDoubleBooked(P, picks, i, j);
    } else if j < i {
      NeverDoubleBooked(P, picks, j, i);
    }
  }

  lemma ServedOffBookings(P: Problem, picks: seq<(nat, nat)>, si: nat, t: int, di: nat)
    requires Within(P, picks) && FreeWhenBooked(P, picks) && si < |P.soldiers|
    requires Occupies(P, Chosen(picks), si, false, t, di)
    ensures !Published(P, si, false, t)
  {
    var i := PickOf(picks, di, si);
    NeverOnBookedDay(P, picks, i);
    assert t in DutyDays(P.duties[di]);
    BookedDaysMeaning(P.existing, P.soldiers[si].id, false, t);
  }

  lemma ApartOnCalendar(P: Problem, picks: seq<(nat, nat)>, si: nat)
    requires Within(P, picks) && FreeWhenBooked(P, picks) && si < |P.soldiers|
    ensures OneThingADay(P, Chosen(picks), si)
  {
    var x := Chosen(picks);
    forall t: int, di: nat, dj: nat | Occupies(P, x, si, false, t, di) && Occupies(P, x, si, false, t, dj)
      ensures di == dj
    {
      ServedOnce(P, picks, si, t, di, dj);
    }
    forall t: int | Serves(P, x, si, false, t) ensures !Published(P, si, false, t) {
      var di: nat :| Occupies(P, x, si, false, t, di);
      ServedOffBookings(P, picks, si, t, di);
    }
  }

  lemma RestedOnCalendar(P: Problem, picks: seq<(nat, nat)>, si: nat)
    requires Proper(P, picks) && si < |P.soldiers|
    ensures RestedAfterBookings(P, Chosen(picks), si)
  {
    forall e, di: nat
      | e in P.existing && e.soldier == P.soldiers[si].id && di < |P.duties| && (di, si) in Chosen(picks)
        && e.restEnd.RestEnd? && e.restHours > 0
      ensures StartMinute(P.duties[di]) >= e.restEnd.day * 1440 + e.restEnd.time + 60 * e.restHours
    {
      var i := PickOf(picks, di, si);
      NeverUnrested(P, picks, i, e);
    }
  }

  /** The roster of every reachable state of a run is good. */
  lemma RosterIsGood(P: Problem, c: Ceilings, picks: seq<(nat, nat)>)
    requires DistinctSoldiers(P) && Within(P, picks) && Proper(P, picks) && FreeWhenBooked(P, picks)
    requires DensityBounded(P, c, P.existing + Bookings(P, picks))
    ensures GoodRoster(P, c, picks)
  {
    forall i | 0 <= i < |picks| ensures May(P, picks[i].0, picks[i].1) {
      assert Eligible(P, picks[i].0, picks[i].1);
    }
    forall si: nat | si < |P.soldiers|
      ensures OneThingADay(P, Chosen(picks), si)
      ensures RestedAfterBookings(P, Chosen(picks), si)
      ensures WindowsBounded(P, c, Chosen(picks), si)
    {
      ApartOnCalendar(P, picks, si);
      RestedOnCalendar(P, picks, si);
      BoundedOnCalendar(P, c, picks, si);
    }
  }
}
