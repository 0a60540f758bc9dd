/** The constraint that a soldier serves at most one duty a day, and none on a booked day. */
module OverlapRules {
  import opened Domain
  import opened Sums
  import opened Sorting
  import opened HardModel
  import opened Constraints

  /** Every day that some duty of the problem occupies. */
  function AllDays(duties: seq<Duty>): set<int> {
    if duties == [] then {} else DutyDays(duties[0]) + AllDays(duties[1..])
  }

  lemma {:induction false} DutyDaysWithin(duties: seq<Duty>, di: nat)
    requires di < |duties|
    ensures DutyDays(duties[di]) <= AllDays(duties)
  {
    if di > 0 {
      var rest := duties[1..];
      assert rest[di - 1] == duties[di];
      DutyDaysWithin(rest, di - 1);
      assert DutyDays(duties[di]) <= AllDays(rest) <= AllDays(duties);
    }
  }

  predicate ServesOn(P: Problem, di: nat, si: nat, t: int) {
    Eligible(P, di, si) && t in DutyDays(P.duties[di])
  }

  /** At most one of the soldier's chosen duties falls on day t, none if the day is booked. */
  ghost predicate DayOk(P: Problem, x: Point, si: nat, t: int)
    requires si < |P.soldiers|
  {
    && (t in BookedDays(P.existing, P.soldiers[si].id, false) ==>
          forall di: nat | (di, si) in x :: !ServesOn(P, di, si, t))
    && (forall di: nat, dj: nat | di < dj && (di, si) in x && (dj, si) in x ::
          !(ServesOn(P, di, si, t) && ServesOn(P, dj, si, t)))
  }

  function DayTerms(P: Problem, si: nat, t: int): seq<Term> {
    SoldierTerms(Filter(|P.duties|, (di: nat) => ServesOn(P, di, si, t)), si)
  }

  function DayConstraint(P: Problem, si: nat, t: int): seq<Constraint>
    requires si < |P.soldiers|
  {
    var vars := DayTerms(P, si, t);
    if vars == [] then []
    else if t in BookedDays(P.existing, P.soldiers[si].id, false) then [Exactly(vars, 0)]
    else [AtMost(vars, 1)]
  }

  lemma DayCount(P: Problem, si: nat, t: int, x: Point)
    ensures var v := Value(DayTerms(P, si, t), x);
            && (v == 0 <==> forall di: nat | (di, si) in x :: !ServesOn(P, di, si, t))
            && (v <= 1 <==> forall di: nat, dj: nat | di < dj && (di, si) in x && (dj, si) in x ::
                              !(ServesOn(P, di, si, t) && ServesOn(P, dj, si, t)))
  {
    var n := |P.duties|;
    var p := (di: nat) => ServesOn(P, di, si, t);
    var both := (di: nat) => (di, si) in x && ServesOn(P, di, si, t);
    SoldierTermsCount(si, n, p, x);
    SumExt(n, Bits((di: nat) => (di, si) in x && p(di)), Bits(both));
    CountIsZero(n, both);
    CountAtMostOne(n, both);
    assert forall di: nat :: ServesOn(P, di, si, t) ==> di < n;
    if forall di: nat, dj: nat | di < dj < n :: !(both(di) && both(dj)) {
      forall di: nat, dj: nat | di < dj && (di, si) in x && (dj, si) in x
        ensures !(ServesOn(P, di, si, t) && ServesOn(P, dj, si, t))
      {
        assert di < dj < n ==> !(both(di) && both(dj));
      }
    }
    if forall di: nat | di < n :: !both(di) {
      forall di: nat | (di, si) in x ensures !ServesOn(P, di, si, t) {
        assert di < n ==> !both(di);
      }
    }
  }

  lemma DayEmitted(P: Problem, si: nat, t: int, x: Point, k: set<nat>)
    requires si < |P.soldiers|
    ensures AllHold(DayConstraint(P, si, t), x, k) <==> DayOk(P, x, si, t)
  {
    DayCount(P, si, t, x);
    var vars := DayTerms(P, si, t);
    if vars != [] {
      AllHoldSingle(DayConstraint(P, si, t)[0], x, k);
    }
  }

  /** Day by day is pair by pair. */
  lemma DaysToPairs(P: Problem, x: Point, si: nat)
    requires si < |P.soldiers| && OverVariables(P, x)
    ensures (forall t | t in AllDays(P.duties) :: DayOk(P, x, si, t)) <==> NoOverlapOk(P, x, si)
  {
    if forall t | t in AllDays(P.duties) :: DayOk(P, x, si, t) {
      forall di: nat | di < |P.duties| && (di, si) in x
        ensures DutyDays(P.duties[di]) !! BookedDays(P.existing, P.soldiers[si].id, false)
      {
        forall t | t in DutyDays(P.duties[di])
          ensures t !in BookedDays(P.existing, P.soldiers[si].id, false)
        {
          DutyDaysWithin(P.duties, di);
          assert DayOk(P, x, si, t) && ServesOn(P, di, si, t);
        }
      }
      forall di: nat, dj: nat | di < dj < |P.duties| && (di, si) in x && (dj, si) in x
        ensures DutyDays(P.duties[di]) !! DutyDays(P.duties[dj])
      {
        forall t | t in DutyDays(P.duties[di]) ensures t !in DutyDays(P.duties[dj]) {
          DutyDaysWithin(P.duties, di);
          assert DayOk(P, x, si, t) && ServesOn(P, di, si, t);
          assert ServesOn(P, dj, si, t) <==> t in DutyDays(P.duties[dj]);
        }
      }
    }
  }

  ghost predicate DaysOk(P: Problem, x: Point, si: nat, days: seq<int>)
    requires si < |P.soldiers|
  {
    forall j | 0 <= j < |days| :: DayOk(P, x, si, days[j])
  }

  /** The constraints say that the rule holds on each of these days. */
  ghost predicate SaysDays(P: Problem, si: nat, days: seq<int>, cs: seq<Constraint>)
    requires si < |P.soldiers|
  {
    forall x: Point, k: set<nat> :: AllHold(cs, x, k) <==> DaysOk(P, x, si, days)
  }

  lemma OneMoreDay(P: Problem, si: nat, days: seq<int>, i: nat, cs: seq<Constraint>)
    requires si < |P.soldiers| && i < |days| && SaysDays(P, si, days[..i], cs)
    ensures SaysDays(P, si, days[..i + 1], cs + DayConstraint(P, si, days[i]))
  {
    var t, added, all := days[i], DayConstraint(P, si, days[i]), days[..i + 1];
    assert all == days[..i] + [t];
    forall x: Point, k: set<nat> ensures AllHold(cs + added, x, k) <==> DaysOk(P, x, si, all) {
      AllHoldAppend(cs, added, x, k);
      DayEmitted(P, si, t, x, k);
      DaysOkMore(P, x, si, days[..i], t);
    }
  }

  lemma DaysOkMore(P: Problem, x: Point, si: nat, days: seq<int>, t: int)
    requires si < |P.soldiers|
    ensures DaysOk(P, x, si, days + [t]) <==> DaysOk(P, x, si, days) && DayOk(P, x, si, t)
  {
    var all := days + [t];
    if DaysOk(P, x, si, all) {
      assert DayOk(P, x, si, all[|days|]);
      forall j | 0 <= j < |days| ensures DayOk(P, x, si, days[j]) {
        assert all[j] == days[j];
      }
    }
  }

  lemma AllDaysOk(P: Problem, x: Point, si: nat, days: seq<int>)
    requires si < |P.soldiers| && OverVariables(P, x) && forall t :: t in days <==> t in AllDays(P.duties)
    ensures DaysOk(P, x, si, days) <==> NoOverlapOk(P, x, si)
  {
    DaysToPairs(P, x, si);
    if DaysOk(P, x, si, days) {
      forall t | t in AllDays(P.duties) ensures DayOk(P, x, si, t) {
        var j :| 0 <= j < |days| && days[j] == t;
      }
    }
  }

  lemma AllDaysSaid(P: Problem, si: nat, days: seq<int>, cs: seq<Constraint>)
    requires si < |P.soldiers| && SaysDays(P, si, days, cs) && forall t :: t in days <==> t in AllDays(P.duties)
    ensures forall x: Point, k: set<nat> | OverVariables(P, x) :: AllHold(cs, x, k) <==> NoOverlapOk(P, x, si)
  {
    forall x: Point, k: set<nat> | OverVariables(P, x) ensures AllHold(cs, x, k) <==> NoOverlapOk(P, x, si) {
      AllDaysOk(P, x, si, days);
    }
  }

  method EmitOverlap(P: Problem, si: nat) returns (cs: seq<Constraint>)
    requires si < |P.soldiers|
    ensures forall x: Point, k: set<nat> | OverVariables(P, x) :: AllHold(cs, x, k) <==> NoOverlapOk(P, x, si)
  {
    cs := [];
    var days := SortedSet(AllDays(P.duties));
    for i := 0 to |days|
      invariant SaysDays(P, si, days[..i], cs)
    {
      OneMoreDay(P, si, days, i, cs);
      cs := cs + DayConstraint(P, si, days[i]);
    }
    assert days[..|days|] == days;
    AllDaysSaid(P, si, days, cs);
  }
}
