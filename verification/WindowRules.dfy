/**
 Rolling density caps. Constraints are emitted only for window starts between the first and
 the last relevant date, only over duties found by bisection, and with the headroom clamped;
 together they say that every window of the calendar fits.
 */
module WindowRules {
  import opened Domain
  import opened Sums
  import opened Sorting
  import opened HardModel
  import opened Constraints
  import opened RestRules

  // ----- one window -----

  /** The same variables, each counted once. */
  function Unweighted(ts: seq<Term>): seq<Term> {
    if ts == [] then [] else [Term(ts[0].v, 1)] + Unweighted(ts[1..])
  }

  ghost predicate PositiveWeights(ts: seq<Term>) {
    forall i | 0 <= i < |ts| :: ts[i].weight > 0
  }

  lemma {:induction false} UnweightedZero(ts: seq<Term>, x: Point)
    requires PositiveWeights(ts)
    ensures Value(ts, x) >= 0 && Value(Unweighted(ts), x) >= 0
    ensures Value(Unweighted(ts), x) == 0 <==> Value(ts, x) == 0
  {
    if ts != [] {
      UnweightedZero(ts[1..], x);
    }
  }

  /** A cap with existing load: nothing more when the headroom is gone, else at most the headroom. */
  function CapConstraint(ts: seq<Term>, booked: nat, cap: int): seq<Constraint> {
    if ts == [] && booked == 0 then []
    else
      var headroom := cap - booked;
      if headroom <= 0 then
        if ts == [] then [] else [Exactly(Unweighted(ts), 0)]
      else [AtMost(ts, headroom)]
  }

  lemma CapEmitted(ts: seq<Term>, booked: nat, cap: int, x: Point, k: set<nat>)
    requires PositiveWeights(ts)
    ensures AllHold(CapConstraint(ts, booked, cap), x, k) <==> Fits(Value(ts, x), booked, cap)
  {
    UnweightedZero(ts, x);
    var cs := CapConstraint(ts, booked, cap);
    if cs != [] {
      AllHoldSingle(cs[0], x, k);
    }
  }

  function Starts(P: Problem, order: seq<nat>): (r: seq<int>)
    ensures |r| == |order|
    ensures forall i | 0 <= i < |r| && order[i] < |P.duties| :: r[i] == P.duties[order[i]].start
  {
    if order == [] then []
    else [if order[0] < |P.duties| then P.duties[order[0]].start else 0] + Starts(P, order[1..])
  }

  /** The term of one duty in one window, if it has a day there. */
  function WindowTerm(P: Problem, di: nat, si: nat, ws: int, width: nat, realOnly: bool): seq<Term>
    requires di < |P.duties|
  {
    var d := P.duties[di];
    var we := ws + width - 1;
    if d.end < ws || (realOnly && d.isReserve) then []
    else
      var overlap := (if d.end < we + 1 then d.end else we + 1) - (if d.start > ws then d.start else ws);
      if overlap > 0 then [Term((di, si), overlap)] else []
  }

  lemma WindowTermValue(P: Problem, di: nat, si: nat, ws: int, width: nat, realOnly: bool, x: Point)
    requires Eligible(P, di, si)
    ensures PositiveWeights(WindowTerm(P, di, si, ws, width, realOnly))
    ensures Value(WindowTerm(P, di, si, ws, width, realOnly), x)
            == Contribution(P, x, si, ws, width, realOnly)(di)
  {
    var ts := WindowTerm(P, di, si, ws, width, realOnly);
    if ts != [] {
      assert ts[1..] == [];
      assert ts[0].weight == Overlap(P.duties[di], ws, width);
    }
  }

  lemma WindowTermsStep(P: Problem, si: nat, done: seq<nat>, di: nat, ts: seq<Term>, ws: int, width: nat,
                        realOnly: bool, x: Point)
    requires Eligible(P, di, si)
    requires Value(ts, x) == SumOver(done, Contribution(P, x, si, ws, width, realOnly))
    ensures Value(ts + WindowTerm(P, di, si, ws, width, realOnly), x)
            == SumOver(done + [di], Contribution(P, x, si, ws, width, realOnly))
  {
    var f := Contribution(P, x, si, ws, width, realOnly);
    ValueAppend(ts, WindowTerm(P, di, si, ws, width, realOnly), x);
    WindowTermValue(P, di, si, ws, width, realOnly, x);
    SumOverAppend(done, [di], f);
    assert [di][1..] == [];
    assert SumOver([di], f) == f(di);
  }

  /** Duties that start after the window add nothing. */
  lemma LaterDutiesAddNothing(P: Problem, si: nat, later: seq<nat>, ws: int, width: nat, realOnly: bool, x: Point)
    requires forall i | 0 <= i < |later| :: later[i] < |P.duties| && P.duties[later[i]].start >= ws + width
    ensures SumOver(later, Contribution(P, x, si, ws, width, realOnly)) == 0
  {
    var f := Contribution(P, x, si, ws, width, realOnly);
    SumOverExt(later, f, (_: nat) => 0);
    AllZero(later);
  }

  /** The terms sum up the new duty days that the listed duties put into the window. */
  ghost predicate CountsWindow(P: Problem, si: nat, ts: seq<Term>, order: seq<nat>, ws: int, width: nat, realOnly: bool)
  {
    && PositiveWeights(ts)
    && forall x: Point :: Value(ts, x) == SumOver(order, Contribution(P, x, si, ws, width, realOnly))
  }

  lemma CountsOneMore(P: Problem, si: nat, ts: seq<Term>, done: seq<nat>, di: nat, ws: int, width: nat, realOnly: bool)
    requires Eligible(P, di, si)
    requires CountsWindow(P, si, ts, done, ws, width, realOnly)
    ensures CountsWindow(P, si, ts + WindowTerm(P, di, si, ws, width, realOnly), done + [di], ws, width, realOnly)
  {
    WindowTermValue(P, di, si, ws, width, realOnly, {});
    forall x: Point
      ensures Value(ts + WindowTerm(P, di, si, ws, width, realOnly), x)
              == SumOver(done + [di], Contribution(P, x, si, ws, width, realOnly))
    {
      WindowTermsStep(P, si, done, di, ts, ws, width, realOnly, x);
    }
  }

  lemma CountsAll(P: Problem, si: nat, ts: seq<Term>, order: seq<nat>, right: nat, ws: int, width: nat, realOnly: bool)
    requires right <= |order|
    requires CountsWindow(P, si, ts, order[..right], ws, width, realOnly)
    requires forall i | right <= i < |order| :: order[i] < |P.duties| && P.duties[order[i]].start >= ws + width
    ensures CountsWindow(P, si, ts, order, ws, width, realOnly)
  {
    var done, later := order[..right], order[right..];
    assert order == done + later;
    forall x: Point
      ensures Value(ts, x) == SumOver(order, Contribution(P, x, si, ws, width, realOnly))
    {
      LaterDutiesAddNothing(P, si, later, ws, width, realOnly, x);
      SumOverAppend(done, later, Contribution(P, x, si, ws, width, realOnly));
    }
  }

  lemma CountsNone(P: Problem, si: nat, ws: int, width: nat, realOnly: bool)
    ensures CountsWindow(P, si, [], [], ws, width, realOnly)
  {
  }

  lemma {:induction false} AllZero(s: seq<nat>)
    ensures SumOver(s, (_: nat) => 0) == 0
  {
    if s != [] {
      AllZero(s[1..]);
    }
  }

  /** The soldier's duties by start date, with the parallel list of start dates. */
  ghost predicate SortedDuties(P: Problem, si: nat, order: seq<nat>, starts: seq<int>) {
    && multiset(order) == multiset(EligibleDuties(P, si))
    && |starts| == |order| && Ascending(starts)
    && forall i | 0 <= i < |order| :: Eligible(P, order[i], si) && starts[i] == P.duties[order[i]].start
  }

  method SortDuties(P: Problem, si: nat) returns (order: seq<nat>, starts: seq<int>)
    ensures SortedDuties(P, si, order, starts)
  {
    order := DutiesByStart(P, si);
    starts := Starts(P, order);
    ByStartPrecedes(P, si);
    forall i, j | 0 <= i < j < |order| ensures starts[i] <= starts[j] {
      assert Precedes(P, order[i], order[j]);
    }
  }

  /** The terms sum up every new duty day that falls into the window. */
  ghost predicate CountsNew(P: Problem, si: nat, ts: seq<Term>, ws: int, width: nat, realOnly: bool) {
    && PositiveWeights(ts)
    && forall x: Point :: Value(ts, x) == NewDays(P, x, si, ws, width, realOnly)
  }

  /** Summing over the sorted eligible duties is summing over all duties. */
  lemma SortedSum(P: Problem, si: nat, ts: seq<Term>, order: seq<nat>, ws: int, width: nat, realOnly: bool)
    requires multiset(order) == multiset(EligibleDuties(P, si))
    requires CountsWindow(P, si, ts, order, ws, width, realOnly)
    ensures CountsNew(P, si, ts, ws, width, realOnly)
  {
    forall x: Point ensures Value(ts, x) == NewDays(P, x, si, ws, width, realOnly) {
      var f := Contribution(P, x, si, ws, width, realOnly);
      SumOnSupport(|P.duties|, EligibleDuties(P, si), f);
      SumOverPermutation(order, EligibleDuties(P, si), f);
    }
  }

  /** The new duty days of a window, found among the duties that start by its last day. */
  method WindowTerms(P: Problem, si: nat, order: seq<nat>, starts: seq<int>, ws: int, width: nat, realOnly: bool)
    returns (ts: seq<Term>)
    requires SortedDuties(P, si, order, starts)
    ensures CountsNew(P, si, ts, ws, width, realOnly)
  {
    ts := [];
    CountsNone(P, si, ws, width, realOnly);
    assert order[..0] == [];
    var right := BisectRight(starts, ws + width - 1);
    var i: nat := 0;
    while i < right
      invariant i <= right
      invariant CountsWindow(P, si, ts, order[..i], ws, width, realOnly)
    {
      CountsOneMore(P, si, ts, order[..i], order[i], ws, width, realOnly);
      assert order[..i + 1] == order[..i] + [order[i]];
      ts := ts + WindowTerm(P, order[i], si, ws, width, realOnly);
      i := i + 1;
    }
    CountsAll(P, si, ts, order, right, ws, width, realOnly);
    SortedSum(P, si, ts, order, ws, width, realOnly);
  }

  // ----- the bounded range of window starts -----

  /** Booked days and eligible duties' start and end dates. */
  function Relevant(P: Problem, si: nat): set<int>
    requires si < |P.soldiers|
  {
    BookedDays(P.existing, P.soldiers[si].id, false)
    + (set di | di in EligibleDuties(P, si) :: P.duties[di].start)
    + (set di | di in EligibleDuties(P, si) :: P.duties[di].end)
  }

  lemma RelevantDates(P: Problem, si: nat)
    requires si < |P.soldiers|
    ensures forall t | t in BookedDays(P.existing, P.soldiers[si].id, false) :: t in Relevant(P, si)
    ensures forall di: nat | Eligible(P, di, si) ::
      P.duties[di].start in Relevant(P, si) && P.duties[di].end in Relevant(P, si)
  {
    forall di: nat | Eligible(P, di, si)
      ensures P.duties[di].start in Relevant(P, si) && P.duties[di].end in Relevant(P, si)
    {
      assert di in EligibleDuties(P, si);
    }
  }

  /** A window that starts earlier sees no more than the first window, when nothing lies before it. */
  lemma OverlapBeforeFirst(d: Duty, ws: int, first: int, width: nat)
    requires ws <= first <= d.start
    ensures Overlap(d, ws, width) <= Overlap(d, first, width)
  {
  }

  lemma BookedBeforeFirst(P: Problem, si: nat, ws: int, first: int, width: nat, realOnly: bool)
    requires si < |P.soldiers| && ws <= first
    requires forall t | t in BookedDays(P.existing, P.soldiers[si].id, false) :: first <= t
    ensures OldDays(P, si, ws, width, realOnly) <= OldDays(P, si, first, width, realOnly)
  {
    var days := BookedDays(P.existing, P.soldiers[si].id, realOnly);
    BookedDaysReal(P.existing, P.soldiers[si].id);
    var a, b := Between(days, ws, ws + width - 1), Between(days, first, first + width - 1);
    assert a <= b;
    SubsetSize(a, b);
  }

  ghost predicate BoundedWindowsFit(P: Problem, x: Point, si: nat, first: int, last: int, width: nat, realOnly: bool,
                                    cap: int)
    requires si < |P.soldiers|
  {
    forall ws | first <= ws <= last :: WindowFits(P, x, si, ws, width, realOnly, cap)
  }

  /** Windows outside the emitted range hold because the windows at its ends do. */
  lemma BoundedRangeSuffices(P: Problem, x: Point, si: nat, first: int, last: int, width: nat, realOnly: bool, cap: int,
                             ws: int)
    requires si < |P.soldiers| && first <= last
    requires forall t | t in Relevant(P, si) :: first <= t <= last
    requires BoundedWindowsFit(P, x, si, first, last, width, realOnly, cap)
    ensures WindowFits(P, x, si, ws, width, realOnly, cap)
  {
    var f := Contribution(P, x, si, ws, width, realOnly);
    RelevantDates(P, si);
    if ws < first {
      var g := Contribution(P, x, si, first, width, realOnly);
      forall di: nat | di < |P.duties| ensures f(di) <= g(di) {
        if Eligible(P, di, si) {
          OverlapBeforeFirst(P.duties[di], ws, first, width);
        }
      }
      SumMonotone(|P.duties|, f, g);
      NewDaysNonNegative(P, x, si, ws, width, realOnly);
      BookedBeforeFirst(P, si, ws, first, width, realOnly);
      assert WindowFits(P, x, si, first, width, realOnly, cap);
    } else if ws > last {
      SumZero(|P.duties|, f);
    }
  }

  lemma NoRelevantDates(P: Problem, x: Point, si: nat, ws: int, width: nat, realOnly: bool, cap: int)
    requires si < |P.soldiers|
    requires Relevant(P, si) == {}
    ensures WindowFits(P, x, si, ws, width, realOnly, cap)
  {
    var f := Contribution(P, x, si, ws, width, realOnly);
    RelevantDates(P, si);
    SumZero(|P.duties|, f);
  }

  function Greatest(s: set<int>): (m: int)
    requires s != {}
    ensures m in s && forall y | y in s :: y <= m
  {
    var r := SortedSet(s);
    assert r != [] by {
      assert |s| > 0;
    }
    assert r[|r| - 1] in r;
    r[|r| - 1]
  }

  /** One more window start. */
  lemma WindowEmitted(P: Problem, si: nat, cs: seq<Constraint>, ts: seq<Term>, ws: int, width: nat, realOnly: bool,
                      cap: int,
                      x: Point, k: set<nat>)
    requires si < |P.soldiers| && PositiveWeights(ts)
    requires Value(ts, x) == NewDays(P, x, si, ws, width, realOnly)
    ensures AllHold(cs + CapConstraint(ts, OldDays(P, si, ws, width, realOnly), cap), x, k) <==>
            AllHold(cs, x, k) && WindowFits(P, x, si, ws, width, realOnly, cap)
  {
    var booked := OldDays(P, si, ws, width, realOnly);
    AllHoldAppend(cs, CapConstraint(ts, booked, cap), x, k);
    CapEmitted(ts, booked, cap, x, k);
  }

  /** The constraints say that the windows starting from first to last fit. */
  ghost predicate EmitsWindows(P: Problem, si: nat, cs: seq<Constraint>, first: int, last: int, width: nat,
                               realOnly: bool, cap: int)
    requires si < |P.soldiers|
  {
    forall x: Point, k: set<nat> ::
      AllHold(cs, x, k) <==> BoundedWindowsFit(P, x, si, first, last, width, realOnly, cap)
  }

  lemma EmitsNothing(P: Problem, si: nat, first: int, width: nat, realOnly: bool, cap: int)
    requires si < |P.soldiers|
    ensures EmitsWindows(P, si, [], first, first - 1, width, realOnly, cap)
  {
  }

  lemma OneMoreWindowFits(P: Problem, x: Point, si: nat, first: int, ws: int, width: nat, realOnly: bool, cap: int)
    requires si < |P.soldiers| && first <= ws
    ensures BoundedWindowsFit(P, x, si, first, ws, width, realOnly, cap) <==>
            BoundedWindowsFit(P, x, si, first, ws - 1, width, realOnly, cap)
            && WindowFits(P, x, si, ws, width, realOnly, cap)
  {
  }

  lemma EmitsOneMore(P: Problem, si: nat, cs: seq<Constraint>, ts: seq<Term>, first: int, ws: int, width: nat,
                     realOnly: bool, cap: int)
    requires si < |P.soldiers| && first <= ws
    requires EmitsWindows(P, si, cs, first, ws - 1, width, realOnly, cap)
    requires CountsNew(P, si, ts, ws, width, realOnly)
    ensures EmitsWindows(P, si, cs + CapConstraint(ts, OldDays(P, si, ws, width, realOnly), cap), first, ws, width,
      realOnly, cap)
  {
    var all := cs + CapConstraint(ts, OldDays(P, si, ws, width, realOnly), cap);
    forall x: Point, k: set<nat>
      ensures AllHold(all, x, k) <==> BoundedWindowsFit(P, x, si, first, ws, width, realOnly, cap)
    {
      calc {
        AllHold(all, x, k);
        { WindowEmitted(P, si, cs, ts, ws, width, realOnly, cap, x, k); }
        AllHold(cs, x, k) && WindowFits(P, x, si, ws, width, realOnly, cap);
        { OneMoreWindowFits(P, x, si, first, ws, width, realOnly, cap); }
        BoundedWindowsFit(P, x, si, first, ws, width, realOnly, cap);
      }
    }
  }

  /** Two bisects over the sorted booked days. */
  method CountBooked(ghost booked: set<int>, days: seq<int>, ws: int, we: int) returns (n: nat)
    requires days == SortedSet(booked) && ws <= we + 1
    ensures n == |Between(booked, ws, we)|
  {
    CountBetween(booked, ws, we);
    n := CountIn(days, ws, we);
  }

  /** The soldier's booked days and their sorted list. */
  ghost predicate BookedListing(P: Problem, si: nat, realOnly: bool, booked: set<int>, days: seq<int>)
    requires si < |P.soldiers|
  {
    booked == BookedDays(P.existing, P.soldiers[si].id, realOnly) && days == SortedSet(booked)
  }

  method ListBooked(P: Problem, si: nat, realOnly: bool) returns (ghost booked: set<int>, days: seq<int>)
    requires si < |P.soldiers|
    ensures BookedListing(P, si, realOnly, booked, days)
  {
    booked := BookedDays(P.existing, P.soldiers[si].id, realOnly);
    days := SortedSet(BookedDays(P.existing, P.soldiers[si].id, realOnly));
  }

  method AlreadyBooked(P: Problem, si: nat, ghost booked: set<int>, days: seq<int>, ws: int, width: nat, realOnly: bool)
    returns (n: nat)
    requires si < |P.soldiers| && BookedListing(P, si, realOnly, booked, days)
    ensures n == OldDays(P, si, ws, width, realOnly)
  {
    OldDaysIs(P, si, booked, days, ws, width, realOnly);
    n := CountBooked(booked, days, ws, ws + width - 1);
  }

  lemma OldDaysIs(P: Problem, si: nat, booked: set<int>, days: seq<int>, ws: int, width: nat, realOnly: bool)
    requires si < |P.soldiers| && BookedListing(P, si, realOnly, booked, days)
    ensures days == SortedSet(booked)
    ensures OldDays(P, si, ws, width, realOnly) == |Between(booked, ws, ws + width - 1)|
  {
  }

  method EmitCap(P: Problem, si: nat, first: int, last: int, width: nat, realOnly: bool, cap: int)
    returns (cs: seq<Constraint>)
    requires si < |P.soldiers| && first <= last
    ensures EmitsWindows(P, si, cs, first, last, width, realOnly, cap)
  {
    cs := [];
    var order, starts := SortDuties(P, si);
    EmitsNothing(P, si, first, width, realOnly, cap);
    var booked, days := ListBooked(P, si, realOnly);
    var ws := first;
    while ws <= last
      invariant first <= ws <= last + 1
      invariant EmitsWindows(P, si, cs, first, ws - 1, width, realOnly, cap)
    {
      var already := AlreadyBooked(P, si, booked, days, ws, width, realOnly);
      var terms := WindowTerms(P, si, order, starts, ws, width, realOnly);
      EmitsOneMore(P, si, cs, terms, first, ws, width, realOnly, cap);
      cs := cs + CapConstraint(terms, already, cap);
      ws := ws + 1;
    }
  }

  /** Both caps of a soldier, for every window of the calendar. */
  method EmitWindows(P: Problem, si: nat) returns (cs: seq<Constraint>)
    requires si < |P.soldiers|
    ensures forall x: Point, k: set<nat> :: AllHold(cs, x, k) <==> DensityOk(P, x, si)
  {
    var relevant := Relevant(P, si);
    if relevant == {} {
      cs := [];
      forall x: Point, k: set<nat> ensures AllHold(cs, x, k) <==> DensityOk(P, x, si) {
        forall ws: int
          ensures WindowFits(P, x, si, ws, P.caps.Wt, true, P.caps.T)
          ensures WindowFits(P, x, si, ws, P.caps.Wr, false, P.caps.R)
        {
          NoRelevantDates(P, x, si, ws, P.caps.Wt, true, P.caps.T);
          NoRelevantDates(P, x, si, ws, P.caps.Wr, false, P.caps.R);
        }
      }
      return;
    }
    var first, last := Least(relevant), Greatest(relevant);
    var realCs := EmitCap(P, si, first, last, P.caps.Wt, true, P.caps.T);
    var allCs := EmitCap(P, si, first, last, P.caps.Wr, false, P.caps.R);
    cs := realCs + allCs;
    forall x: Point, k: set<nat> ensures AllHold(cs, x, k) <==> DensityOk(P, x, si) {
      AllHoldAppend(realCs, allCs, x, k);
      UnboundedDensity(P, x, si, first, last);
    }
  }

  lemma UnboundedDensity(P: Problem, x: Point, si: nat, first: int, last: int)
    requires si < |P.soldiers| && first <= last
    requires forall t | t in Relevant(P, si) :: first <= t <= last
    ensures (&& BoundedWindowsFit(P, x, si, first, last, P.caps.Wt, true, P.caps.T)
             && BoundedWindowsFit(P, x, si, first, last, P.caps.Wr, false, P.caps.R))
            <==> DensityOk(P, x, si)
  {
    if BoundedWindowsFit(P, x, si, first, last, P.caps.Wt, true, P.caps.T)
       && BoundedWindowsFit(P, x, si, first, last, P.caps.Wr, false, P.caps.R) {
      forall ws: int
        ensures WindowFits(P, x, si, ws, P.caps.Wt, true, P.caps.T)
        ensures WindowFits(P, x, si, ws, P.caps.Wr, false, P.caps.R)
      {
        BoundedRangeSuffices(P, x, si, first, last, P.caps.Wt, true, P.caps.T, ws);
        BoundedRangeSuffices(P, x, si, first, last, P.caps.Wr, false, P.caps.R, ws);
      }
    }
  }
}
