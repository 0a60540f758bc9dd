/**
 Building the caches of the swap pass from the list of assignments: holdings, booked dates day
 by day, efforts and their total.
 */
module SwapCaches {
  import opened Domain
  import opened Sums
  import opened Sorting
  import opened HardModel
  import opened SwapModel
  import opened SwapPass

  /** The solver's assignments, as (duty, soldier) positions. */
  type Roster = seq<(nat, nat)>

  /** Each duty is assigned at most once. */
  ghost predicate Listed(B: Board, roster: Roster) {
    && (forall i | 0 <= i < |roster| :: roster[i].0 < |B.duties| && roster[i].1 < |B.soldiers|)
    && (forall i, j | 0 <= i < j < |roster| :: roster[i].0 != roster[j].0)
  }

  function HoldingOf(roster: Roster): (h: Holding)
    ensures forall i | 0 <= i < |roster| :: roster[i].0 in h
    ensures forall di | di in h :: exists i :: 0 <= i < |roster| && roster[i].0 == di
  {
    if roster == [] then map[]
    else
      var last := roster[|roster| - 1];
      assert forall i | 0 <= i < |roster| - 1 :: roster[i] == roster[..|roster| - 1][i];
      HoldingOf(roster[..|roster| - 1])[last.0 := last.1]
  }

  /** What the pass is given: every duty once, nobody double-booked. */
  ghost predicate Given(B: Board, roster: Roster) {
    Listed(B, roster) && Assigns(B, HoldingOf(roster)) && NoDoubleBooking(B, HoldingOf(roster))
  }

  lemma HeldByMore(h: Holding, di: nat, si: nat)
    requires di !in h
    ensures HeldBy(h[di := si], si) == HeldBy(h, si) + {di}
    ensures forall sj: nat | sj != si :: HeldBy(h[di := si], sj) == HeldBy(h, sj)
  {
  }

  /** The two maps between duties and soldiers, inverse to each other. */
  method BuildHoldings(B: Board, roster: Roster) returns (assignedTo: Holding, held: seq<set<nat>>)
    requires Listed(B, roster)
    ensures assignedTo == HoldingOf(roster) && HeldAgree(B, assignedTo, held)
  {
    assignedTo := map[];
    held := seq(|B.soldiers|, _ => {});
    for i := 0 to |roster|
      invariant assignedTo == HoldingOf(roster[..i]) && HeldAgree(B, assignedTo, held)
    {
      var di, si := roster[i].0, roster[i].1;
      assert roster[..i + 1][..i] == roster[..i];
      HeldByMore(assignedTo, di, si);
      assignedTo := assignedTo[di := si];
      held := held[si := held[si] + {di}];
    }
    assert roster[..|roster|] == roster;
  }

  // ----- dates -----

  /** The list holds exactly these days, in any order and number. */
  ghost predicate Holds(list: seq<int>, days: set<int>) {
    forall t :: t in list <==> t in days
  }

  method AppendDays(list: seq<int>, start: int, end: int, ghost days: set<int>) returns (r: seq<int>)
    requires Holds(list, days)
    ensures Holds(r, days + Days(start, end))
  {
    r := list;
    var t := start;
    while t < end
      invariant start <= t && (start < end ==> t <= end) && (end <= start ==> t == start)
      invariant forall d :: d in r <==> d in days || start <= d < t
    {
      r := r + [t];
      t := t + 1;
    }
  }

  method AppendUnless(skip: bool, list: seq<int>, start: int, end: int, ghost days: set<int>) returns (r: seq<int>)
    requires Holds(list, days)
    ensures Holds(r, days + if skip then {} else Days(start, end))
  {
    r := list;
    if !skip {
      r := AppendDays(list, start, end, days);
    }
  }

  method ExistingDays(B: Board, id: Id) returns (allDays: seq<int>, realDays: seq<int>)
    ensures Holds(allDays, BookedDays(B.existing, id, false)) && Holds(realDays, BookedDays(B.existing, id, true))
  {
    allDays, realDays := [], [];
    for i := 0 to |B.existing|
      invariant Holds(allDays, BookedDays(B.existing[..i], id, false))
      invariant Holds(realDays, BookedDays(B.existing[..i], id, true))
    {
      var e := B.existing[i];
      ghost var es := B.existing[..i];
      assert B.existing[..i + 1] == es + [e];
      BookedDaysAppend(es, e, id, false);
      BookedDaysAppend(es, e, id, true);
      allDays := AppendUnless(e.soldier != id, allDays, e.start, e.end, BookedDays(es, id, false));
      realDays := AppendUnless(e.soldier != id || e.isReserve, realDays, e.start, e.end, BookedDays(es, id, true));
    }
    assert B.existing[..|B.existing|] == B.existing;
  }

  lemma MoveOne<T>(rest: set<T>, done: set<T>, held: set<T>, x: T)
    requires rest + done == held && rest !! done && x in rest
    ensures (rest - {x}) + (done + {x}) == held && rest - {x} !! done + {x} && |rest - {x}| < |rest| && x !in done
  {
  }

  /** Both lists, once the duties of a set have been visited on top of the published days. */
  ghost predicate Visited(B: Board, all: seq<int>, reals: seq<int>, booked: set<int>, bookedReal: set<int>,
                          done: set<nat>)
  {
    Holds(all, booked + HeldDays(B, done, false)) && Holds(reals, bookedReal + HeldDays(B, done, true))
  }

  lemma VisitedOne(B: Board, all: seq<int>, reals: seq<int>, booked: set<int>, bookedReal: set<int>, done: set<nat>,
                   di: nat)
    requires di < |B.duties|
    requires var d := B.duties[di];
             && Holds(all, booked + HeldDays(B, done, false) + DutyDays(d))
             && Holds(reals, bookedReal + HeldDays(B, done, true) + if d.isReserve then {} else DutyDays(d))
    ensures Visited(B, all, reals, booked, bookedReal, done + {di})
  {
    HeldDaysPlus(B, done, di, false);
    HeldDaysPlus(B, done, di, true);
  }

  /** The days of the held duties, visited in any order, on top of the published ones. */
  method HeldDuties(B: Board, held: set<nat>, allDays: seq<int>, realDays: seq<int>,
                    ghost booked: set<int>, ghost bookedReal: set<int>)
    returns (all: seq<int>, reals: seq<int>)
    requires Holds(allDays, booked) && Holds(realDays, bookedReal) && forall di | di in held :: di < |B.duties|
    ensures Visited(B, all, reals, booked, bookedReal, held)
  {
    all, reals := allDays, realDays;
    var rest := held;
    ghost var done: set<nat> := {};
    while rest != {}
      invariant rest + done == held && rest !! done
      invariant Visited(B, all, reals, booked, bookedReal, done)
      decreases |rest|
    {
      var di :| di in rest;
      var d := B.duties[di];
      all := AppendDays(all, d.start, d.end, booked + HeldDays(B, done, false));
      reals := AppendUnless(d.isReserve, reals, d.start, d.end, bookedReal + HeldDays(B, done, true));
      VisitedOne(B, all, reals, booked, bookedReal, done, di);
      MoveOne(rest, done, held, di);
      rest, done := rest - {di}, done + {di};
    }
    assert done == held;
  }

  lemma ElementsOf(list: seq<int>, days: set<int>)
    requires Holds(list, days)
    ensures Elements(list) == days
  {
    forall t: int ensures t in Elements(list) <==> t in days {
      assert t in list <==> t in days;
    }
  }

  /** One soldier's days as a set and, sorted, as two lists. */
  method DateLists(B: Board, ghost h: Holding, si: nat, held: set<nat>)
    returns (days: set<int>, all: seq<int>, reals: seq<int>)
    requires si < |B.soldiers| && Assigns(B, h) && held == HeldBy(h, si)
    ensures DatesAt(B, h, si, days, all, reals)
  {
    var id := B.soldiers[si].id;
    var published, publishedReal := ExistingDays(B, id);
    ghost var booked, bookedReal := BookedDays(B.existing, id, false), BookedDays(B.existing, id, true);
    var allDays, realDays := HeldDuties(B, held, published, publishedReal, booked, bookedReal);
    ElementsOf(allDays, DaysOf(B, h, si, false));
    ElementsOf(realDays, DaysOf(B, h, si, true));
    days := Elements(allDays);
    all, reals := SortedSet(Elements(allDays)), SortedSet(Elements(realDays));
  }

  ghost predicate DatesUpTo(B: Board, h: Holding, n: nat, allSet: seq<set<int>>, allSorted: seq<seq<int>>,
                            realSorted: seq<seq<int>>)
  {
    && |allSet| == |allSorted| == |realSorted| == n <= |B.soldiers|
    && forall si: nat | si < n :: DatesAt(B, h, si, allSet[si], allSorted[si], realSorted[si])
  }

  lemma Snoc<T>(s: seq<T>, x: T, i: nat)
    requires i <= |s|
    ensures (s + [x])[i] == if i < |s| then s[i] else x
  {
  }

  lemma DatesOneMore(B: Board, h: Holding, n: nat, allSet: seq<set<int>>, allSorted: seq<seq<int>>,
                     realSorted: seq<seq<int>>,
                     days: set<int>, all: seq<int>, reals: seq<int>)
    requires n < |B.soldiers| && DatesUpTo(B, h, n, allSet, allSorted, realSorted) && DatesAt(B, h, n, days, all, reals)
    ensures DatesUpTo(B, h, n + 1, allSet + [days], allSorted + [all], realSorted + [reals])
  {
    var s, a, r := allSet + [days], allSorted + [all], realSorted + [reals];
    forall si: nat | si < n + 1 ensures DatesAt(B, h, si, s[si], a[si], r[si]) {
      Snoc(allSet, days, si);
      Snoc(allSorted, all, si);
      Snoc(realSorted, reals, si);
    }
  }

  method BuildDates(B: Board, ghost h: Holding, held: seq<set<nat>>)
    returns (allSet: seq<set<int>>, allSorted: seq<seq<int>>, realSorted: seq<seq<int>>)
    requires Assigns(B, h) && HeldAgree(B, h, held)
    ensures DatesAgree(B, h, allSet, allSorted, realSorted)
  {
    allSet, allSorted, realSorted := [], [], [];
    for si := 0 to |B.soldiers|
      invariant DatesUpTo(B, h, si, allSet, allSorted, realSorted)
    {
      var days, all, reals := DateLists(B, h, si, held[si]);
      DatesOneMore(B, h, si, allSet, allSorted, realSorted, days, all, reals);
      allSet, allSorted, realSorted := allSet + [days], allSorted + [all], realSorted + [reals];
    }
  }

  // ----- efforts -----

  /** What each duty of a set adds to a soldier's effort, at his own rate. */
  function Shares(B: Board, si: nat, held: set<nat>): nat -> int
    requires si < |B.soldiers|
  {
    (di: nat) => if di in held && di < |B.scores| then Burdened(B, si, di, 0) else 0
  }

  /** A soldier's effort with these duties. */
  function EffortWith(B: Board, si: nat, held: set<nat>): int
    requires si < |B.soldiers|
  {
    B.soldiers[si].effortOffset + Sum(|B.duties|, Shares(B, si, held))
  }

  lemma EffortOneMore(B: Board, si: nat, done: set<nat>, di: nat)
    requires |B.scores| == |B.duties| && si < |B.soldiers| && di < |B.duties| && di !in done
    ensures EffortWith(B, si, done + {di}) == Burdened(B, si, di, EffortWith(B, si, done))
  {
    SumChangeOne(|B.duties|, Shares(B, si, done), Shares(B, si, done + {di}), di);
  }

  lemma EffortWithNone(B: Board, si: nat)
    requires si < |B.soldiers|
    ensures EffortWith(B, si, {}) == B.soldiers[si].effortOffset
  {
    SumZero(|B.duties|, Shares(B, si, {}));
  }

  lemma {:induction false} SumScale(n: nat, k: int, f: nat -> int, g: nat -> int)
    requires forall i: nat | i < n :: g(i) == k * f(i)
    ensures Sum(n, g) == k * Sum(n, f)
  {
    if n > 0 {
      SumScale(n - 1, k, f, g);
      Distribute(k, Sum(n - 1, f), f(n - 1));
    }
  }

  lemma EffortWithAll(B: Board, h: Holding, si: nat)
    requires |B.scores| == |B.duties| && Assigns(B, h) && si < |B.soldiers|
    ensures EffortWith(B, si, HeldBy(h, si)) == EffortOf(B, h, si)
  {
    SumScale(|B.duties|, B.soldiers[si].effortPerMilli, ScoreIfHeld(B, h, si), Shares(B, si, HeldBy(h, si)));
  }

  /** The soldier's duties, visited in any order, each adding its score at his own rate. */
  method OneEffort(B: Board, ghost h: Holding, si: nat, held: set<nat>) returns (e: int)
    requires |B.scores| == |B.duties| && Assigns(B, h) && si < |B.soldiers| && held == HeldBy(h, si)
    ensures e == EffortOf(B, h, si)
  {
    e := B.soldiers[si].effortOffset;
    EffortWithNone(B, si);
    var rest := held;
    ghost var done: set<nat> := {};
    while rest != {}
      invariant rest + done == held && rest !! done && e == EffortWith(B, si, done)
      decreases |rest|
    {
      var di :| di in rest;
      MoveOne(rest, done, held, di);
      EffortOneMore(B, si, done, di);
      e := Burdened(B, si, di, e);
      rest, done := rest - {di}, done + {di};
    }
    assert done == held;
    EffortWithAll(B, h, si);
  }

  method BuildEfforts(B: Board, ghost h: Holding, held: seq<set<nat>>) returns (efforts: seq<int>, total: int)
    requires WellFormed(B) && Assigns(B, h) && HeldAgree(B, h, held)
    ensures EffortsAgree(B, h, efforts, total)
  {
    efforts, total := [], 0;
    for si := 0 to |B.soldiers|
      invariant |efforts| == si && total == Sum(si, Efforts(B, h))
      invariant forall sj: nat | sj < si :: efforts[sj] == EffortOf(B, h, sj)
    {
      var e := OneEffort(B, h, si, held[si]);
      efforts, total := efforts + [e], total + e;
    }
  }
}
