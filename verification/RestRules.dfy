/**
 Rest between duties: a soldier's duties in start order are compared only while they start
 within a bounded number of days, which loses no clash.
 */
module RestRules {
  import opened Domain
  import opened Sorting
  import opened HardModel
  import opened Constraints

  /** Days after the end of a duty within which another one can still start too soon. */
  function LookaheadDays(restHours: int): int {
    CeilDiv(restHours, 24) + 1
  }

  /** Beyond the lookahead nothing can clash. */
  lemma BeyondLookahead(d: Duty, next: Duty)
    requires d.restHours > 0 && ClockTime(d.endTime) && ClockTime(next.startTime)
    requires next.start > LastDutyDay(d.start, d.end) + LookaheadDays(d.restHours)
    ensures !RestViolated(DutyEnd(d), next.start, next.startTime, d.restHours)
  {
    var c := CeilDiv(d.restHours, 24);
    assert 24 * c >= d.restHours;
  }

  function StartOrder(P: Problem): (nat, nat) -> bool {
    (a: nat, b: nat) =>
      if a < |P.duties| && b < |P.duties| then P.duties[a].start <= P.duties[b].start
      else b >= |P.duties|
  }

  lemma StartOrderTotal(P: Problem)
    ensures TotalPreorder(StartOrder(P))
  {
  }

  /** sorted(si_duties, key=start_date) */
  function DutiesByStart(P: Problem, si: nat): (r: seq<nat>)
    ensures multiset(r) == multiset(EligibleDuties(P, si))
    ensures forall i | 0 <= i < |r| :: Eligible(P, r[i], si)
    ensures forall di: nat :: Eligible(P, di, si) ==> di in r
  {
    var r := SortBy(EligibleDuties(P, si), StartOrder(P));
    SameMembers(r, EligibleDuties(P, si));
    assert forall i | 0 <= i < |r| :: r[i] in r;
    r
  }

  /** The sorted list runs in start order, ties by position. */
  lemma ByStartPrecedes(P: Problem, si: nat)
    ensures var r := DutiesByStart(P, si);
            forall i, j | 0 <= i < j < |r| :: Precedes(P, r[i], r[j])
  {
    StartOrderTotal(P);
    SortByOrdered(EligibleDuties(P, si), StartOrder(P));
    SortByStable(EligibleDuties(P, si), StartOrder(P));
    var r := DutiesByStart(P, si);
    forall i, j | 0 <= i < j < |r| ensures Precedes(P, r[i], r[j]) {
      assert StartOrder(P)(r[i], r[j]);
      assert StartOrder(P)(r[j], r[i]) ==> r[i] < r[j];
    }
  }

  ghost predicate PairOk(P: Problem, x: Point, si: nat, di: nat, dj: nat)
    requires di < |P.duties| && dj < |P.duties|
  {
    (di, si) in x && (dj, si) in x ==> !RestClash(P, di, dj)
  }

  lemma PairEmitted(di: nat, dj: nat, si: nat, x: Point, k: set<nat>)
    ensures AllHold([AtMost([Term((di, si), 1), Term((dj, si), 1)], 1)], x, k)
            <==> !((di, si) in x && (dj, si) in x)
  {
    var ts := [Term((di, si), 1), Term((dj, si), 1)];
    assert ts[1..] == [Term((dj, si), 1)] && ts[1..][1..] == [];
    assert Value(ts[1..], x) == if (dj, si) in x then 1 else 0;
    AllHoldSingle(AtMost(ts, 1), x, k);
  }

  /** Pairs of the duty at one position of the start order, cut off at the lookahead. */
  method EmitPairsFrom(P: Problem, si: nat, a: nat) returns (cs: seq<Constraint>)
    requires forall d | d in P.duties :: ClockTime(d.startTime) && ClockTime(d.endTime)
    requires a < |DutiesByStart(P, si)|
    ensures var order := DutiesByStart(P, si);
            forall x: Point, k: set<nat> ::
              AllHold(cs, x, k) <==> forall j | a < j < |order| :: PairOk(P, x, si, order[a], order[j])
  {
    cs := [];
    ByStartPrecedes(P, si);
    var order := DutiesByStart(P, si);
    var di := order[a];
    var d := P.duties[di];
    if d.restHours <= 0 {
      return;
    }
    var endDay := LastDutyDay(d.start, d.end);
    var b: nat := a + 1;
    while b < |order|
      invariant a < b <= |order|
      invariant forall x: Point, k: set<nat> ::
        AllHold(cs, x, k) <==> forall j | a < j < b :: PairOk(P, x, si, di, order[j])
    {
      var dj := order[b];
      var next := P.duties[dj];
      assert Precedes(P, di, dj);
      if next.start > endDay + LookaheadDays(d.restHours) {
        forall j | b <= j < |order| ensures !RestClash(P, di, order[j]) {
          assert b < j ==> Precedes(P, dj, order[j]);
          assert P.duties[order[j]] in P.duties && d in P.duties;
          BeyondLookahead(d, P.duties[order[j]]);
        }
        break;
      }
      if RestViolated(Instant(endDay, d.endTime), next.start, next.startTime, d.restHours) {
        var added := [AtMost([Term((di, si), 1), Term((dj, si), 1)], 1)];
        forall x: Point, k: set<nat>
          ensures AllHold(cs + added, x, k) <==> AllHold(cs, x, k) && PairOk(P, x, si, di, dj)
        {
          AllHoldAppend(cs, added, x, k);
          PairEmitted(di, dj, si, x, k);
        }
        cs := cs + added;
      }
      b := b + 1;
    }
  }

  lemma IndexFollows(P: Problem, order: seq<nat>, i: nat, j: nat)
    requires i < |order| && j < |order| && forall k | 0 <= k < |order| :: order[k] < |P.duties|
    requires forall a, b | 0 <= a < b < |order| :: Precedes(P, order[a], order[b])
    requires Precedes(P, order[i], order[j])
    ensures i < j
  {
    PrecedesAsymmetric(P, order[i], order[j]);
  }

  lemma PrecedesAsymmetric(P: Problem, di: nat, dj: nat)
    requires di < |P.duties| && dj < |P.duties|
    ensures !(Precedes(P, di, dj) && Precedes(P, dj, di))
  {
  }

  /** The pairs that start at one of the first n positions of the start order. */
  ghost predicate PairsOk(P: Problem, x: Point, si: nat, n: nat)
    requires n <= |DutiesByStart(P, si)|
  {
    forall i: nat, j: nat | i < n && i < j < |DutiesByStart(P, si)| ::
      PairOk(P, x, si, DutiesByStart(P, si)[i], DutiesByStart(P, si)[j])
  }

  /** Start order covers every clashing pair of the soldier's variables. */
  lemma PairsInOrder(P: Problem, x: Point, si: nat)
    requires OverVariables(P, x)
    ensures PairsOk(P, x, si, |DutiesByStart(P, si)|) <==> PairedRestOk(P, x, si)
  {
    var order := DutiesByStart(P, si);
    ByStartPrecedes(P, si);
    if PairsOk(P, x, si, |order|) {
      forall di: nat, dj: nat | di < |P.duties| && dj < |P.duties| && (di, si) in x && (dj, si) in x
        ensures !RestClash(P, di, dj)
      {
        if Precedes(P, di, dj) {
          assert di in order && dj in order;
          var i: nat :| i < |order| && order[i] == di;
          var j: nat :| j < |order| && order[j] == dj;
          IndexFollows(P, order, i, j);
          assert PairOk(P, x, si, order[i], order[j]);
        }
      }
    }
  }

  // ----- rest after published bookings -----

  /** The constraint, if any, that the pair of booking and duty gives rise to. */
  function BookingConstraint(P: Problem, si: nat, e: Existing, di: nat): seq<Constraint>
    requires si < |P.soldiers| && di < |P.duties|
  {
    if ClashesWithBooking(e, P.soldiers[si].id, P.duties[di]) then [Exactly([Term((di, si), 1)], 0)] else []
  }

  ghost predicate Barred(P: Problem, x: Point, si: nat, e: Existing, di: nat)
    requires si < |P.soldiers| && di < |P.duties|
  {
    ClashesWithBooking(e, P.soldiers[si].id, P.duties[di]) ==> (di, si) !in x
  }

  lemma BookingEmitted(P: Problem, si: nat, e: Existing, di: nat, x: Point, k: set<nat>)
    requires si < |P.soldiers| && di < |P.duties|
    ensures AllHold(BookingConstraint(P, si, e, di), x, k) <==> Barred(P, x, si, e, di)
  {
    var c := Exactly([Term((di, si), 1)], 0);
    assert c.terms[1..] == [] && c.terms[0].v == (di, si);
    assert Value(c.terms, x) == if (di, si) in x then 1 else 0;
    AllHoldSingle(c, x, k);
  }

  /** None of the soldier's first n duties clashes with the booking. */
  ghost predicate BookingOk(P: Problem, x: Point, si: nat, e: Existing, n: nat)
    requires si < |P.soldiers| && n <= |EligibleDuties(P, si)|
  {
    forall j: nat | j < n :: Barred(P, x, si, e, EligibleDuties(P, si)[j])
  }

  /** Nor with any of the first m bookings. */
  ghost predicate BookingsOk(P: Problem, x: Point, si: nat, m: nat)
    requires si < |P.soldiers| && m <= |P.existing|
  {
    forall p: nat | p < m :: BookingOk(P, x, si, P.existing[p], |EligibleDuties(P, si)|)
  }

  /** The constraints say that of the first m bookings, and of the first n duties for the next one. */
  ghost predicate SaysBookings(P: Problem, si: nat, m: nat, n: nat, cs: seq<Constraint>)
    requires si < |P.soldiers| && m <= |P.existing| && n <= |EligibleDuties(P, si)| && (n > 0 ==> m < |P.existing|)
  {
    forall x: Point, k: set<nat> ::
      AllHold(cs, x, k) <==> BookingsOk(P, x, si, m) && (n > 0 ==> BookingOk(P, x, si, P.existing[m], n))
  }

  lemma OneMoreBarred(P: Problem, si: nat, m: nat, n: nat, cs: seq<Constraint>)
    requires si < |P.soldiers| && m < |P.existing| && n < |EligibleDuties(P, si)| && SaysBookings(P, si, m, n, cs)
    ensures SaysBookings(P, si, m, n + 1, cs + BookingConstraint(P, si, P.existing[m], EligibleDuties(P, si)[n]))
  {
    var e, di := P.existing[m], EligibleDuties(P, si)[n];
    var added := BookingConstraint(P, si, e, di);
    forall x: Point, k: set<nat>
      ensures AllHold(cs + added, x, k) <==> BookingsOk(P, x, si, m) && BookingOk(P, x, si, e, n + 1)
    {
      AllHoldAppend(cs, added, x, k);
      BookingEmitted(P, si, e, di, x, k);
      BookingOkMore(P, x, si, e, n);
    }
  }

  lemma BookingOkMore(P: Problem, x: Point, si: nat, e: Existing, n: nat)
    requires si < |P.soldiers| && n < |EligibleDuties(P, si)|
    ensures BookingOk(P, x, si, e, n + 1)
      <==> BookingOk(P, x, si, e, n) && Barred(P, x, si, e, EligibleDuties(P, si)[n])
  {
  }

  lemma NextBooking(P: Problem, si: nat, m: nat, cs: seq<Constraint>)
    requires si < |P.soldiers| && m < |P.existing| && SaysBookings(P, si, m, |EligibleDuties(P, si)|, cs)
    ensures SaysBookings(P, si, m + 1, 0, cs)
  {
    forall x: Point, k: set<nat> ensures AllHold(cs, x, k) <==> BookingsOk(P, x, si, m + 1) {
    }
  }

  lemma AllBookingsOk(P: Problem, x: Point, si: nat)
    requires si < |P.soldiers| && OverVariables(P, x)
    ensures BookingsOk(P, x, si, |P.existing|) <==> BookedRestOk(P, x, si)
  {
    var mine := EligibleDuties(P, si);
    if BookingsOk(P, x, si, |P.existing|) {
      forall e, di: nat | e in P.existing && di < |P.duties| && (di, si) in x
        ensures !ClashesWithBooking(e, P.soldiers[si].id, P.duties[di])
      {
        var p: nat :| p < |P.existing| && P.existing[p] == e;
        assert di in mine;
        var j: nat :| j < |mine| && mine[j] == di;
        assert BookingOk(P, x, si, P.existing[p], |mine|);
        assert Barred(P, x, si, e, mine[j]);
      }
    }
    if BookedRestOk(P, x, si) {
      forall p: nat, j: nat | p < |P.existing| && j < |mine| ensures Barred(P, x, si, P.existing[p], mine[j]) {
        assert P.existing[p] in P.existing;
      }
    }
  }

  method EmitBookedRest(P: Problem, si: nat) returns (cs: seq<Constraint>)
    requires si < |P.soldiers|
    ensures forall x: Point, k: set<nat> | OverVariables(P, x) :: AllHold(cs, x, k) <==> BookedRestOk(P, x, si)
  {
    cs := [];
    var mine := EligibleDuties(P, si);
    var i: nat := 0;
    while i < |P.existing|
      invariant i <= |P.existing| && SaysBookings(P, si, i, 0, cs)
    {
      var j: nat := 0;
      while j < |mine|
        invariant j <= |mine| && SaysBookings(P, si, i, j, cs)
      {
        OneMoreBarred(P, si, i, j, cs);
        cs := cs + BookingConstraint(P, si, P.existing[i], mine[j]);
        j := j + 1;
      }
      NextBooking(P, si, i, cs);
      i := i + 1;
    }
    forall x: Point, k: set<nat> | OverVariables(P, x) ensures AllHold(cs, x, k) <==> BookedRestOk(P, x, si) {
      AllBookingsOk(P, x, si);
    }
  }

  // ----- all rest constraints of a soldier -----

  /** The constraints say that no booking clashes, and none of the pairs that start at the first n positions. */
  ghost predicate SaysPairs(P: Problem, si: nat, n: nat, cs: seq<Constraint>)
    requires si < |P.soldiers| && n <= |DutiesByStart(P, si)|
  {
    forall x: Point, k: set<nat> | OverVariables(P, x) ::
      AllHold(cs, x, k) <==> BookedRestOk(P, x, si) && PairsOk(P, x, si, n)
  }

  lemma OneMoreStart(P: Problem, si: nat, a: nat, cs: seq<Constraint>, added: seq<Constraint>)
    requires si < |P.soldiers| && a < |DutiesByStart(P, si)| && SaysPairs(P, si, a, cs)
    requires forall x: Point, k: set<nat> ::
      AllHold(added, x, k) <==>
      forall j | a < j < |DutiesByStart(P, si)| :: PairOk(P, x, si, DutiesByStart(P, si)[a], DutiesByStart(P, si)[j])
    ensures SaysPairs(P, si, a + 1, cs + added)
  {
    forall x: Point, k: set<nat> | OverVariables(P, x)
      ensures AllHold(cs + added, x, k) <==> BookedRestOk(P, x, si) && PairsOk(P, x, si, a + 1)
    {
      AllHoldAppend(cs, added, x, k);
    }
  }

  method EmitRest(P: Problem, si: nat) returns (cs: seq<Constraint>)
    requires si < |P.soldiers|
    requires forall d | d in P.duties :: ClockTime(d.startTime) && ClockTime(d.endTime)
    ensures forall x: Point, k: set<nat> | OverVariables(P, x) :: AllHold(cs, x, k) <==> RestOk(P, x, si)
  {
    cs := EmitBookedRest(P, si);
    var a: nat := 0;
    while a < |DutiesByStart(P, si)|
      invariant a <= |DutiesByStart(P, si)| && SaysPairs(P, si, a, cs)
    {
      var added := EmitPairsFrom(P, si, a);
      OneMoreStart(P, si, a, cs, added);
      cs := cs + added;
      a := a + 1;
    }
    forall x: Point, k: set<nat> | OverVariables(P, x) ensures AllHold(cs, x, k) <==> RestOk(P, x, si) {
      PairsInOrder(P, x, si);
    }
  }
}
