/**
 The greedy post-solve swap pass over incrementally maintained caches. After every transfer
 each cache equals what recomputation from the published bookings and the held duties gives.
 */
module SwapPass {
  import opened Domain
  import opened Sums
  import opened Sorting
  import opened SwapModel
  import opened HardModel

  // ----- caches -----

  /** The elements of a list. */
  function Elements(list: seq<int>): (r: set<int>)
    ensures forall t :: t in r <==> t in list
  {
    set t | t in list
  }

  lemma ListedSorted(s: set<int>)
    ensures Elements(SortedSet(s)) == s
  {
  }

  /** The donor's real days rebuilt from the sorted list. */
  function RealWithout(realSorted: seq<int>, d: Duty): seq<int> {
    if d.isReserve then realSorted else SortedSet(Elements(realSorted) - DutyDays(d))
  }

  lemma RealOfDonor(B: Board, h: Holding, di: nat, to: nat)
    requires CanMove(B, h, di, to) && NoDoubleBooking(B, h)
    ensures RealWithout(SortedSet(DaysOf(B, h, h[di], true)), B.duties[di])
            == SortedSet(DaysOf(B, h[di := to], h[di], true))
  {
    DaysLost(B, h, di, to, true);
    ListedSorted(DaysOf(B, h, h[di], true));
    assert DaysOf(B, h, h[di], true) - {} == DaysOf(B, h, h[di], true);
  }

  lemma RealOfRecipient(B: Board, h: Holding, di: nat, to: nat)
    requires CanMove(B, h, di, to)
    ensures DaysOf(B, h[di := to], to, true)
            == if B.duties[di].isReserve then DaysOf(B, h, to, true)
               else DaysOf(B, h, to, true) + DutyDays(B.duties[di])
  {
    DaysGained(B, h, di, to, true);
    assert DaysOf(B, h, to, true) + {} == DaysOf(B, h, to, true);
  }

  lemma DatesOfDonor(B: Board, h: Holding, di: nat, to: nat, allSet: set<int>, allSorted: seq<int>,
                     realSorted: seq<int>)
    requires CanMove(B, h, di, to) && NoDoubleBooking(B, h)
    requires DatesAt(B, h, h[di], allSet, allSorted, realSorted)
    ensures var left := allSet - DutyDays(B.duties[di]);
            DatesAt(B, h[di := to], h[di], left, SortedSet(left), RealWithout(realSorted, B.duties[di]))
  {
    DaysLost(B, h, di, to, false);
    RealOfDonor(B, h, di, to);
  }

  lemma DatesOfRecipient(B: Board, h: Holding, di: nat, to: nat, allSet: set<int>, allSorted: seq<int>,
                         realSorted: seq<int>,
                         allTo: seq<int>, realTo: seq<int>)
    requires CanMove(B, h, di, to) && DatesAt(B, h, to, allSet, allSorted, realSorted)
    requires allTo == SortedSet(allSet + DutyDays(B.duties[di]))
    requires realTo == if B.duties[di].isReserve then realSorted
                       else SortedSet(DaysOf(B, h, to, true) + DutyDays(B.duties[di]))
    ensures DatesAt(B, h[di := to], to, allSet + DutyDays(B.duties[di]), allTo, realTo)
  {
    DaysGained(B, h, di, to, false);
    RealOfRecipient(B, h, di, to);
  }

  lemma DatesOfOther(B: Board, h: Holding, di: nat, to: nat, si: nat, allSet: set<int>, allSorted: seq<int>,
                     realSorted: seq<int>)
    requires CanMove(B, h, di, to) && si < |B.soldiers| && si != to && si != h[di]
    requires DatesAt(B, h, si, allSet, allSorted, realSorted)
    ensures DatesAt(B, h[di := to], si, allSet, allSorted, realSorted)
  {
    DaysKept(B, h, di, to, si, false);
    DaysKept(B, h, di, to, si, true);
  }

  lemma DaysSnoc(start: int, t: int)
    requires start <= t
    ensures Days(start, t + 1) == Days(start, t) + {t}
  {
  }

  lemma DayIsNew(s: set<int>, start: int, t: int, end: int)
    requires s !! Days(start, end) && start <= t < end
    ensures t !in s + Days(start, t)
  {
    assert t in Days(start, end);
  }

  lemma UnionSnoc(s: set<int>, d: set<int>, e: set<int>, t: int)
    requires e == d + {t}
    ensures s + d + {t} == s + e
  {
  }

  lemma NextDay(s: set<int>, start: int, t: int, end: int)
    requires s !! Days(start, end) && start <= t < end
    ensures t !in s + Days(start, t)
    ensures s + Days(start, t) + {t} == s + Days(start, t + 1)
  {
    DayIsNew(s, start, t, end);
    DaysSnoc(start, t);
    UnionSnoc(s, Days(start, t), Days(start, t + 1), t);
  }

  /** Days inserted one by one into the sorted listing of a set that has none of them. */
  method InsertDays(sorted: seq<int>, ghost s: set<int>, start: int, end: int) returns (r: seq<int>)
    requires sorted == SortedSet(s) && s !! Days(start, end)
    ensures r == SortedSet(s + Days(start, end))
  {
    r := sorted;
    ghost var listed := s;
    var t := start;
    NoDays(s, start, end);
    while t < end
      invariant start <= t && (start < end ==> t <= end) && (end <= start ==> t == start)
      invariant listed == s + Days(start, t) && r == SortedSet(listed)
    {
      r, listed := InsertDay(r, listed, s, start, t, end);
      t := t + 1;
    }
  }

  lemma NoDays(s: set<int>, start: int, end: int)
    ensures s + Days(start, start) == s
    ensures end <= start ==> Days(start, end) == Days(start, start)
  {
  }

  method InsertDay(sorted: seq<int>, ghost listed: set<int>, ghost s: set<int>, ghost start: int, t: int,
                   ghost end: int)
    returns (r: seq<int>, ghost listed': set<int>)
    requires sorted == SortedSet(listed) && listed == s + Days(start, t)
    requires s !! Days(start, end) && start <= t < end
    ensures r == SortedSet(listed') && listed' == s + Days(start, t + 1)
  {
    NextDay(s, start, t, end);
    InsortSortedSet(listed, t);
    r := Insort(sorted, t);
    listed' := listed + {t};
  }

  // ----- the choice of a transfer -----

  /** Donor above the mean, recipient eligible and below the donor. */
  ghost predicate Candidate(B: Board, h: Holding, from: nat, di: nat, to: nat) {
    && Assigns(B, h) && |B.eligible| == |B.duties|
    && di in h && h[di] == from && to < |B.soldiers| && to != from && to in B.eligible[di]
    && AboveMean(B, EffortOf(B, h, from), TotalEffort(B, h))
    && EffortOf(B, h, to) < EffortOf(B, h, from)
  }

  predicate AboveMean(B: Board, effort: int, total: int) {
    |B.soldiers| * effort > total
  }

  /** The recipient is free on the days and has room in every touched window. */
  ghost predicate Receivable(B: Board, h: Holding, di: nat, to: nat)
    requires di < |B.duties| && to < |B.soldiers|
  {
    DutyDays(B.duties[di]) == {} ||
    (&& DutyDays(B.duties[di]) !! DaysOf(B, h, to, false)
     && (!B.duties[di].isReserve ==> RoomForOne(B, h, di, to, true, B.caps.Wt, B.caps.T))
     && RoomForOne(B, h, di, to, false, B.caps.Wr, B.caps.R))
  }

  /** The gain of moving duty di between soldiers with the given efforts. */
  function GainOf(B: Board, total: int, effFrom: int, effTo: int, from: nat, di: nat, to: nat): int
    requires from < |B.soldiers| && to < |B.soldiers| && di < |B.scores|
  {
    Gain(|B.soldiers|, total, effFrom, effTo, Relieved(B, from, di, effFrom), Burdened(B, to, di, effTo))
  }

  /** The transfers the pass would accept. */
  ghost predicate Acceptable(B: Board, h: Holding, from: nat, di: nat, to: nat)
    requires WellFormed(B)
  {
    && Candidate(B, h, from, di, to)
    && Receivable(B, h, di, to)
    && GainOf(B, TotalEffort(B, h), EffortOf(B, h, from), EffortOf(B, h, to), from, di, to) > 0
  }

  /** Accepted transfers move a duty to a soldier who is free, and gain. */
  lemma AcceptableMoves(B: Board, h: Holding, from: nat, di: nat, to: nat)
    requires WellFormed(B) && Acceptable(B, h, from, di, to)
    ensures CanMove(B, h, di, to) && Assigns(B, h[di := to]) && Gainful(B, h, di, to)
  {
    EffortsMoved(B, h, di, to);
    MoveHoldings(B, h, di, to);
  }

  /** What an accepted transfer does to the rolling windows. */
  lemma TransferDensity(B: Board, h: Holding, from: nat, di: nat, to: nat, ws: int)
    requires WellFormed(B) && Acceptable(B, h, from, di, to) && NoDoubleBooking(B, h)
    ensures CanMove(B, h, di, to)
    ensures Touches(B.duties[di], ws, B.caps.Wr) ==>
      Load(B, h[di := to], to, false, ws, B.caps.Wr) <= B.caps.R - 1 + Overlap(B.duties[di], ws, B.caps.Wr)
    ensures Touches(B.duties[di], ws, B.caps.Wt) && !B.duties[di].isReserve ==>
      Load(B, h[di := to], to, true, ws, B.caps.Wt) <= B.caps.T - 1 + Overlap(B.duties[di], ws, B.caps.Wt)
    ensures B.duties[di].isReserve ==>
      Load(B, h[di := to], to, true, ws, B.caps.Wt) == Load(B, h, to, true, ws, B.caps.Wt)
    ensures B.duties[di].end == B.duties[di].start + 1 && Touches(B.duties[di], ws, B.caps.Wr) ==>
      Load(B, h[di := to], to, false, ws, B.caps.Wr) <= B.caps.R
    ensures B.duties[di].end == B.duties[di].start + 1 && !B.duties[di].isReserve ==>
      Touches(B.duties[di], ws, B.caps.Wt) ==>
      Load(B, h[di := to], to, true, ws, B.caps.Wt) <= B.caps.T
    ensures forall si: nat, realOnly: bool, width: nat | si < |B.soldiers| && si != to ::
      Load(B, h[di := to], si, realOnly, ws, width) <= Load(B, h, si, realOnly, ws, width)
  {
    AcceptableMoves(B, h, from, di, to);
    if Touches(B.duties[di], ws, B.caps.Wr) {
      assert B.duties[di].start in DutyDays(B.duties[di]);
      RecipientDensity(B, h, di, to, false, ws, B.caps.Wr, B.caps.R);
    }
    if Touches(B.duties[di], ws, B.caps.Wt) && !B.duties[di].isReserve {
      assert B.duties[di].start in DutyDays(B.duties[di]);
      RecipientDensity(B, h, di, to, true, ws, B.caps.Wt, B.caps.T);
    }
    LoadGained(B, h, di, to, true, ws, B.caps.Wt);
    forall si: nat, realOnly: bool, width: nat | si < |B.soldiers| && si != to
      ensures Load(B, h[di := to], si, realOnly, ws, width) <= Load(B, h, si, realOnly, ws, width)
    {
      OthersDensity(B, h, di, to, si, realOnly, ws, width);
    }
  }

  /**
   Two soldiers of equal rate: the first holds a two-day and a one-day duty, the second is
   booked on the day after the two-day one. Two days are allowed in any three.
   */
  ghost predicate TightBoard(B: Board, h: Holding) {
    && |B.duties| == 2
    && B.duties[0].start == 0 && B.duties[0].end == 2 && !B.duties[0].isReserve
    && B.duties[1].start == 10 && B.duties[1].end == 11 && !B.duties[1].isReserve
    && B.soldiers == [Soldier(0, {}, 0, 1), Soldier(1, {}, 0, 1)]
    && B.scores == [10, 10] && B.existing == [Existing(1, 2, 3, false, 0, NoRestEnd)]
    && B.eligible == [{0, 1}, {0, 1}] && B.caps == Caps(2, 3, 2, 3)
    && h == map[0 := 0, 1 := 0]
  }

  lemma TightEfforts(B: Board, h: Holding)
    requires TightBoard(B, h)
    ensures EffortOf(B, h, 0) == 20 && EffortOf(B, h, 1) == 0 && TotalEffort(B, h) == 20
  {
    var f0, f1 := ScoreIfHeld(B, h, 0), ScoreIfHeld(B, h, 1);
    assert Sum(0, f0) == 0 && Sum(1, f0) == 10 && Sum(2, f0) == 20;
    assert Sum(0, f1) == 0 && Sum(1, f1) == 0 && Sum(2, f1) == 0;
    var g := Efforts(B, h);
    assert g(0) == 20 && g(1) == 0;
    assert Sum(0, g) == 0 && Sum(1, g) == 20 && Sum(2, g) == 20;
  }

  lemma TightBooked(es: seq<Existing>, realOnly: bool)
    requires es == [Existing(1, 2, 3, false, 0, NoRestEnd)]
    ensures BookedDays(es, 0, realOnly) == {} && BookedDays(es, 1, realOnly) == {2}
  {
    var none: seq<Existing> := [];
    assert es == none + [es[0]];
    BookedDaysAppend(none, es[0], 0, realOnly);
    BookedDaysAppend(none, es[0], 1, realOnly);
  }

  lemma TightHeld(B: Board, realOnly: bool)
    requires |B.duties| == 2 && !B.duties[0].isReserve && !B.duties[1].isReserve
    requires B.duties[0].start == 0 && B.duties[0].end == 2 && B.duties[1].start == 10 && B.duties[1].end == 11
    ensures HeldDays(B, {0, 1}, realOnly) == {0, 1, 10} && HeldDays(B, {}, realOnly) == {}
  {
    forall t: int ensures t in HeldDays(B, {0, 1}, realOnly) <==> t in {0, 1, 10} {
      HeldDaysMembers(B, {0, 1}, realOnly, t);
      assert HeldOn(B, {0, 1}, realOnly, t, 0) <==> 0 <= t < 2;
      assert HeldOn(B, {0, 1}, realOnly, t, 1) <==> t == 10;
    }
  }

  lemma TightHoldings(h: Holding)
    requires h == map[0 := 0, 1 := 0]
    ensures HeldBy(h, 0) == {0, 1} && HeldBy(h, 1) == {}
  {
  }

  lemma TightDays(B: Board, h: Holding, realOnly: bool)
    requires TightBoard(B, h)
    ensures DaysOf(B, h, 0, realOnly) == {0, 1, 10} && DaysOf(B, h, 1, realOnly) == {2}
  {
    TightBooked(B.existing, realOnly);
    TightHeld(B, realOnly);
    TightHoldings(h);
    DaysFromDuties(B, h, 0, realOnly);
    DaysFromBookings(B, h, 1, realOnly);
  }

  lemma DaysFromDuties(B: Board, h: Holding, si: nat, realOnly: bool)
    requires si < |B.soldiers| && BookedDays(B.existing, B.soldiers[si].id, realOnly) == {}
    ensures DaysOf(B, h, si, realOnly) == HeldDays(B, HeldBy(h, si), realOnly)
  {
  }

  lemma DaysFromBookings(B: Board, h: Holding, si: nat, realOnly: bool)
    requires si < |B.soldiers| && HeldDays(B, HeldBy(h, si), realOnly) == {}
    ensures DaysOf(B, h, si, realOnly) == BookedDays(B.existing, B.soldiers[si].id, realOnly)
  {
  }

  lemma TightWindows(ws: int)
    ensures |Between({0, 1, 10}, ws, ws + 2)| <= 2 && |Between({2}, ws, ws + 2)| <= 1
  {
    SubsetSize(Between({2}, ws, ws + 2), {2});
    SubsetSize(Between({0, 1, 10}, ws, ws + 2), if 10 <= ws + 2 then {10} else {0, 1});
  }

  /** To begin with, every window is within both caps, and the second soldier's has room for one more. */
  lemma TightLoads(B: Board, h: Holding, realOnly: bool, ws: int)
    requires TightBoard(B, h)
    ensures Load(B, h, 0, realOnly, ws, 3) <= 2 && Load(B, h, 1, realOnly, ws, 3) <= 1
  {
    TightDays(B, h, realOnly);
    TightWindows(ws);
  }

  lemma TightRoom(B: Board, h: Holding, realOnly: bool)
    requires TightBoard(B, h)
    ensures RoomForOne(B, h, 0, 1, realOnly, 3, 2)
  {
    forall ws: int | Touches(B.duties[0], ws, 3) ensures Load(B, h, 1, realOnly, ws, 3) + 1 <= 2 {
      TightLoads(B, h, realOnly, ws);
    }
  }

  lemma TightAccepted(B: Board, h: Holding)
    requires TightBoard(B, h)
    ensures WellFormed(B) && Acceptable(B, h, 0, 0, 1)
  {
    TightEfforts(B, h);
    TightReceivable(B, h);
  }

  lemma TightReceivable(B: Board, h: Holding)
    requires TightBoard(B, h)
    ensures Receivable(B, h, 0, 1)
  {
    TightDays(B, h, false);
    TightRoom(B, h, true);
    TightRoom(B, h, false);
  }

  /**
   A duty of two days counts once in the check, so an accepted transfer can take a window above
   its cap from a roster that is within both caps everywhere: here the recipient ends with three
   days in three under a cap of two.
   */
  lemma LongDutyMayExceedCap(B: Board, h: Holding)
    requires TightBoard(B, h)
    ensures forall realOnly: bool, ws: int ::
              Load(B, h, 0, realOnly, ws, 3) <= 2 && Load(B, h, 1, realOnly, ws, 3) <= 2
    ensures |B.soldiers| == 2 && B.caps == Caps(2, 3, 2, 3)
    ensures WellFormed(B) && Acceptable(B, h, 0, 0, 1)
    ensures Load(B, h[0 := 1], 1, false, 0, 3) == 3
  {
    forall realOnly: bool, ws: int ensures Load(B, h, 0, realOnly, ws, 3) <= 2 && Load(B, h, 1, realOnly, ws, 3) <= 2 {
      TightLoads(B, h, realOnly, ws);
    }
    TightAccepted(B, h);
    AcceptableMoves(B, h, 0, 0, 1);
    TightOverfull(B, h);
  }

  lemma TightOverfull(B: Board, h: Holding)
    requires TightBoard(B, h) && CanMove(B, h, 0, 1)
    ensures Load(B, h[0 := 1], 1, false, 0, 3) == 3
  {
    TightDays(B, h, false);
    LoadGained(B, h, 0, 1, false, 0, 3);
    assert Between({2}, 0, 2) == {2};
  }

  // ----- sorted(...) over a set with a key -----

  ghost predicate ListsByKey(s: seq<nat>, ids: set<nat>, key: seq<int>) {
    && (forall x: nat :: x in s <==> x in ids)
    && (forall i: nat | i < |s| :: s[i] < |key|)
    && (forall i: nat, j: nat | i < j < |s| :: key[s[i]] <= key[s[j]])
  }

  method LeastByKey(ids: set<nat>, key: seq<int>) returns (best: nat)
    requires ids != {} && forall x: nat | x in ids :: x < |key|
    ensures best in ids && forall x: nat | x in ids :: key[best] <= key[x]
  {
    var rest := ids;
    best :| best in rest;
    rest := rest - {best};
    while rest != {}
      invariant rest <= ids && best in ids
      invariant forall x: nat | x in ids && x !in rest :: key[best] <= key[x]
      decreases rest
    {
      var x: nat :| x in rest;
      if key[x] < key[best] {
        best := x;
      }
      rest := rest - {x};
    }
  }

  /** Ascending by key; the order among equal keys is left open. */
  method SortedByKey(ids: set<nat>, key: seq<int>) returns (s: seq<nat>)
    requires forall x: nat | x in ids :: x < |key|
    ensures ListsByKey(s, ids, key)
  {
    s := [];
    var rest := ids;
    while rest != {}
      invariant rest <= ids
      invariant ListsByKey(s, ids - rest, key)
      invariant forall x: nat, i: nat | x in rest && i < |s| :: key[s[i]] <= key[x]
      decreases rest
    {
      var x := LeastByKey(rest, key);
      AppendByKey(s, ids - rest, key, x);
      assert ids - (rest - {x}) == (ids - rest) + {x};
      s := s + [x];
      rest := rest - {x};
    }
    assert ids - rest == ids;
  }

  lemma AppendByKey(s: seq<nat>, ids: set<nat>, key: seq<int>, x: nat)
    requires ListsByKey(s, ids, key) && x < |key|
    requires forall i: nat | i < |s| :: key[s[i]] <= key[x]
    ensures ListsByKey(s + [x], ids + {x}, key)
  {
    forall y: nat ensures y in s + [x] <==> y in ids + {x} {
      assert y in s + [x] <==> y in s || y == x;
    }
  }

  // ----- checking a recipient -----

  /** Slides over every window that touches the duty, counting by bisection. */
  method HasRoom(sorted: seq<int>, ghost days: set<int>, d: Duty, width: nat, cap: int) returns (ok: bool)
    requires sorted == SortedSet(days) && d.start < d.end
    ensures ok <==> Roomy(days, d, width, cap)
  {
    var ws := d.start - width + 1;
    var last := d.end - 1;
    while ws <= last
      invariant d.start - width + 1 <= ws
      invariant forall v: int | Touches(d, v, width) && v < ws :: |Between(days, v, v + width - 1)| + 1 <= cap
      decreases last - ws
    {
      CountBetween(days, ws, ws + width - 1);
      if CountIn(sorted, ws, ws + width - 1) + 1 > cap {
        assert Touches(d, ws, width);
        return false;
      }
      ws := ws + 1;
    }
    return true;
  }

  method CanReceive(B: Board, ghost h: Holding, to: nat, di: nat, allSet: set<int>, allSorted: seq<int>,
                    realSorted: seq<int>)
    returns (ok: bool)
    requires di < |B.duties| && to < |B.soldiers|
    requires allSet == DaysOf(B, h, to, false) && allSorted == SortedSet(allSet)
    requires realSorted == SortedSet(DaysOf(B, h, to, true))
    ensures ok <==> Receivable(B, h, di, to)
  {
    var d := B.duties[di];
    if d.start >= d.end {
      assert DutyDays(d) == {};
      return true;
    }
    assert d.start in DutyDays(d);
    if !(DutyDays(d) !! allSet) {
      return false;
    }
    if !d.isReserve {
      ok := HasRoom(realSorted, DaysOf(B, h, to, true), d, B.caps.Wt, B.caps.T);
      if !ok {
        return;
      }
    }
    ok := HasRoom(allSorted, allSet, d, B.caps.Wr, B.caps.R);
  }

  // ----- the search for a transfer -----

  /** The effort dictionary and its total agree with recomputation. */
  ghost predicate EffortsAgree(B: Board, h: Holding, efforts: seq<int>, total: int) {
    && |efforts| == |B.soldiers|
    && (forall si: nat | si < |efforts| :: efforts[si] == EffortOf(B, h, si))
    && total == TotalEffort(B, h)
  }

  /** The date sets and sorted lists agree with recomputation. */
  ghost predicate DatesAgree(B: Board, h: Holding, allSet: seq<set<int>>, allSorted: seq<seq<int>>,
                             realSorted: seq<seq<int>>)
  {
    && |allSet| == |allSorted| == |realSorted| == |B.soldiers|
    && (forall si: nat | si < |B.soldiers| :: DatesAt(B, h, si, allSet[si], allSorted[si], realSorted[si]))
  }

  ghost predicate DatesAt(B: Board, h: Holding, si: nat, allSet: set<int>, allSorted: seq<int>, realSorted: seq<int>)
    requires si < |B.soldiers|
  {
    && allSet == DaysOf(B, h, si, false)
    && allSorted == SortedSet(DaysOf(B, h, si, false))
    && realSorted == SortedSet(DaysOf(B, h, si, true))
  }

  ghost predicate HeldAgree(B: Board, h: Holding, soldierDuties: seq<set<nat>>) {
    && |soldierDuties| == |B.soldiers|
    && (forall si: nat | si < |soldierDuties| :: soldierDuties[si] == HeldBy(h, si))
  }

  /** Eligible soldiers other than the donor, with less effort than his, by ascending effort. */
  method Recipients(B: Board, ghost h: Holding, efforts: seq<int>, ghost total: int, from: nat, di: nat)
    returns (candidates: seq<nat>)
    requires WellFormed(B) && Assigns(B, h) && EffortsAgree(B, h, efforts, total)
    requires di in h && h[di] == from && AboveMean(B, EffortOf(B, h, from), total)
    ensures forall t: nat :: t in candidates <==> Candidate(B, h, from, di, t)
    ensures forall i: nat | i < |candidates| :: candidates[i] < |efforts|
    ensures forall i: nat, j: nat | i < j < |candidates| :: efforts[candidates[i]] <= efforts[candidates[j]]
  {
    var pool := set t | t in B.eligible[di] && t < |efforts| && t != from && efforts[t] < efforts[from];
    candidates := SortedByKey(pool, efforts);
    forall t: nat ensures t in pool <==> Candidate(B, h, from, di, t) {
    }
  }

  /** No acceptable transfer of the duty precedes t in the order of recipients. */
  ghost predicate BestRecipient(B: Board, h: Holding, from: nat, di: nat, to: nat)
    requires WellFormed(B) && to < |B.soldiers|
  {
    forall t: nat | Acceptable(B, h, from, di, t) :: EffortOf(B, h, to) <= EffortOf(B, h, t)
  }

  ghost predicate NoRecipient(B: Board, h: Holding, from: nat, di: nat)
    requires WellFormed(B)
  {
    forall t: nat :: !Acceptable(B, h, from, di, t)
  }

  ghost predicate Rejected(B: Board, h: Holding, from: nat, di: nat, candidates: seq<nat>, n: nat)
    requires WellFormed(B) && n <= |candidates|
  {
    forall k: nat | k < n :: !Acceptable(B, h, from, di, candidates[k])
  }

  lemma RejectOneMore(B: Board, h: Holding, from: nat, di: nat, candidates: seq<nat>, n: nat)
    requires WellFormed(B) && n < |candidates| && Rejected(B, h, from, di, candidates, n)
    requires !Acceptable(B, h, from, di, candidates[n])
    ensures Rejected(B, h, from, di, candidates, n + 1)
  {
  }

  /** Whether giving the duty to the candidate passes every check and gains. */
  method Accepts(B: Board, ghost h: Holding, efforts: seq<int>, total: int,
                 allSet: seq<set<int>>, allSorted: seq<seq<int>>, realSorted: seq<seq<int>>,
                 from: nat, di: nat, t: nat)
    returns (ok: bool)
    requires WellFormed(B) && EffortsAgree(B, h, efforts, total)
    requires DatesAgree(B, h, allSet, allSorted, realSorted)
    requires Candidate(B, h, from, di, t)
    ensures ok <==> Acceptable(B, h, from, di, t)
  {
    assert DatesAt(B, h, t, allSet[t], allSorted[t], realSorted[t]);
    ok := CanReceive(B, h, t, di, allSet[t], allSorted[t], realSorted[t]);
    ok := ok && GainOf(B, total, efforts[from], efforts[t], from, di, t) > 0;
  }

  /** The first recipient, by ascending effort, for whom the transfer is accepted. */
  method FindRecipient(B: Board, ghost h: Holding, efforts: seq<int>, total: int,
                       allSet: seq<set<int>>, allSorted: seq<seq<int>>, realSorted: seq<seq<int>>, from: nat, di: nat)
    returns (found: bool, to: nat)
    requires WellFormed(B) && Assigns(B, h) && EffortsAgree(B, h, efforts, total)
    requires DatesAgree(B, h, allSet, allSorted, realSorted)
    requires di in h && h[di] == from && AboveMean(B, EffortOf(B, h, from), total)
    ensures found ==> Acceptable(B, h, from, di, to) && BestRecipient(B, h, from, di, to)
    ensures !found ==> NoRecipient(B, h, from, di)
  {
    found, to := false, 0;
    var candidates := Recipients(B, h, efforts, total, from, di);
    var i: nat := 0;
    while i < |candidates|
      invariant i <= |candidates|
      invariant Rejected(B, h, from, di, candidates, i)
    {
      assert candidates[i] in candidates;
      assert Candidate(B, h, from, di, candidates[i]);
      var ok := Accepts(B, h, efforts, total, allSet, allSorted, realSorted, from, di, candidates[i]);
      if ok {
        FirstIsBest(B, h, efforts, total, from, di, candidates, i);
        return true, candidates[i];
      }
      RejectOneMore(B, h, from, di, candidates, i);
      i := i + 1;
    }
    NoneAccepted(B, h, from, di, candidates);
  }

  lemma FirstIsBest(B: Board, h: Holding, efforts: seq<int>, total: int, from: nat, di: nat, candidates: seq<nat>,
                    i: nat)
    requires WellFormed(B) && EffortsAgree(B, h, efforts, total) && i < |candidates|
    requires forall t: nat :: t in candidates <==> Candidate(B, h, from, di, t)
    requires forall i: nat | i < |candidates| :: candidates[i] < |efforts|
    requires forall i: nat, j: nat | i < j < |candidates| :: efforts[candidates[i]] <= efforts[candidates[j]]
    requires Rejected(B, h, from, di, candidates, i)
    ensures BestRecipient(B, h, from, di, candidates[i])
  {
    forall t: nat | Acceptable(B, h, from, di, t) ensures EffortOf(B, h, candidates[i]) <= EffortOf(B, h, t) {
      assert t in candidates;
      var k: nat :| k < |candidates| && candidates[k] == t;
    }
  }

  lemma NoneAccepted(B: Board, h: Holding, from: nat, di: nat, candidates: seq<nat>)
    requires WellFormed(B)
    requires forall t: nat :: t in candidates <==> Candidate(B, h, from, di, t)
    requires Rejected(B, h, from, di, candidates, |candidates|)
    ensures NoRecipient(B, h, from, di)
  {
    forall t: nat ensures !Acceptable(B, h, from, di, t) {
      if t in candidates {
        var k: nat :| k < |candidates| && candidates[k] == t;
      }
    }
  }

  function Negated(s: seq<int>): (r: seq<int>)
    ensures |r| == |s| && forall i: nat | i < |r| :: r[i] == -s[i]
  {
    seq(|s|, i requires 0 <= i < |s| => -s[i])
  }

  /** Among the donor's acceptable transfers: highest score first, then least recipient effort. */
  ghost predicate BestForDonor(B: Board, h: Holding, from: nat, di: nat, to: nat)
    requires WellFormed(B) && di < |B.scores| && to < |B.soldiers|
  {
    && BestRecipient(B, h, from, di, to)
    && forall d: nat | d < |B.scores| && !NoRecipient(B, h, from, d) :: B.scores[d] <= B.scores[di]
  }

  ghost predicate NoDuty(B: Board, h: Holding, from: nat)
    requires WellFormed(B)
  {
    forall d: nat :: NoRecipient(B, h, from, d)
  }

  ghost predicate DutiesRejected(B: Board, h: Holding, from: nat, duties: seq<nat>, n: nat)
    requires WellFormed(B) && n <= |duties|
  {
    forall k: nat | k < n :: NoRecipient(B, h, from, duties[k])
  }

  lemma RejectDuty(B: Board, h: Holding, from: nat, duties: seq<nat>, n: nat)
    requires WellFormed(B) && n < |duties| && DutiesRejected(B, h, from, duties, n)
      && NoRecipient(B, h, from, duties[n])
    ensures DutiesRejected(B, h, from, duties, n + 1)
  {
  }

  lemma NotHeldNotMoved(B: Board, h: Holding, from: nat, d: nat)
    requires WellFormed(B) && d !in HeldBy(h, from)
    ensures NoRecipient(B, h, from, d)
  {
  }

  lemma AllDutiesRejected(B: Board, h: Holding, from: nat, duties: seq<nat>)
    requires WellFormed(B) && forall d: nat :: d in duties <==> d in HeldBy(h, from)
    requires DutiesRejected(B, h, from, duties, |duties|)
    ensures NoDuty(B, h, from)
  {
    forall d: nat ensures NoRecipient(B, h, from, d) {
      if d in duties {
        var k: nat :| k < |duties| && duties[k] == d;
      } else {
        NotHeldNotMoved(B, h, from, d);
      }
    }
  }

  lemma FirstDutyIsBest(B: Board, h: Holding, from: nat, duties: seq<nat>, i: nat, to: nat)
    requires WellFormed(B) && i < |duties| && to < |B.soldiers|
    requires forall d: nat :: d in duties <==> d in HeldBy(h, from)
    requires forall k: nat | k < |duties| :: duties[k] < |B.scores|
    requires forall k: nat, m: nat | k < m < |duties| :: -B.scores[duties[k]] <= -B.scores[duties[m]]
    requires DutiesRejected(B, h, from, duties, i)
    requires BestRecipient(B, h, from, duties[i], to)
    ensures BestForDonor(B, h, from, duties[i], to)
  {
    forall d: nat | d < |B.scores| && !NoRecipient(B, h, from, d) ensures B.scores[d] <= B.scores[duties[i]] {
      if d !in duties {
        NotHeldNotMoved(B, h, from, d);
      }
      var k: nat :| k < |duties| && duties[k] == d;
    }
  }

  /** The donor's duties by descending score; the first that somebody accepts. */
  method FindForDonor(B: Board, ghost h: Holding, efforts: seq<int>, total: int, held: set<nat>,
                      allSet: seq<set<int>>, allSorted: seq<seq<int>>, realSorted: seq<seq<int>>, from: nat)
    returns (found: bool, di: nat, to: nat)
    requires WellFormed(B) && Assigns(B, h) && EffortsAgree(B, h, efforts, total)
    requires DatesAgree(B, h, allSet, allSorted, realSorted)
    requires from < |B.soldiers| && held == HeldBy(h, from) && AboveMean(B, EffortOf(B, h, from), total)
    ensures found ==> Acceptable(B, h, from, di, to) && BestForDonor(B, h, from, di, to)
    ensures !found ==> NoDuty(B, h, from)
  {
    found, di, to := false, 0, 0;
    var duties := SortedByKey(held, Negated(B.scores));
    var i: nat := 0;
    while i < |duties|
      invariant i <= |duties|
      invariant DutiesRejected(B, h, from, duties, i)
    {
      di := duties[i];
      assert di in held;
      found, to := FindRecipient(B, h, efforts, total, allSet, allSorted, realSorted, from, di);
      if found {
        FirstDutyIsBest(B, h, from, duties, i, to);
        return;
      }
      RejectDuty(B, h, from, duties, i);
      i := i + 1;
    }
    AllDutiesRejected(B, h, from, duties);
  }

  ghost predicate DonorsRejected(B: Board, h: Holding, donors: seq<nat>, n: nat)
    requires WellFormed(B) && n <= |donors|
  {
    forall k: nat | k < n :: NoDuty(B, h, donors[k])
  }

  lemma RejectDonor(B: Board, h: Holding, donors: seq<nat>, n: nat)
    requires WellFormed(B) && n < |donors| && DonorsRejected(B, h, donors, n) && NoDuty(B, h, donors[n])
    ensures DonorsRejected(B, h, donors, n + 1)
  {
  }

  /** The donors with an acceptable transfer have no more effort than this one. */
  ghost predicate BestDonor(B: Board, h: Holding, from: nat)
    requires WellFormed(B) && from < |B.soldiers|
  {
    forall f: nat | f < |B.soldiers| && !NoDuty(B, h, f) :: EffortOf(B, h, f) <= EffortOf(B, h, from)
  }

  ghost predicate NoTransfer(B: Board, h: Holding)
    requires WellFormed(B)
  {
    forall f: nat :: NoDuty(B, h, f)
  }

  lemma NotAboveNotDonor(B: Board, h: Holding, f: nat)
    requires WellFormed(B) && (f >= |B.soldiers| || !AboveMean(B, EffortOf(B, h, f), TotalEffort(B, h)))
    ensures NoDuty(B, h, f)
  {
    forall d: nat, t: nat ensures !Acceptable(B, h, f, d, t) {
      if Assigns(B, h) && d in h && h[d] == f {
        assert h[d] < |B.soldiers|;
      }
    }
  }

  /** Donors above the mean, by descending effort. */
  method Donors(B: Board, ghost h: Holding, efforts: seq<int>, total: int) returns (donors: seq<nat>)
    requires WellFormed(B) && EffortsAgree(B, h, efforts, total)
    ensures forall f: nat :: f in donors <==> f < |B.soldiers| && AboveMean(B, EffortOf(B, h, f), total)
    ensures forall k: nat | k < |donors| :: donors[k] < |B.soldiers|
    ensures forall k: nat, m: nat | k < m < |donors| :: efforts[donors[m]] <= efforts[donors[k]]
  {
    var above := set f: nat | f < |efforts| && AboveMean(B, efforts[f], total);
    donors := SortedByKey(above, Negated(efforts));
  }

  lemma FirstDonorIsBest(B: Board, h: Holding, efforts: seq<int>, total: int, donors: seq<nat>, i: nat)
    requires WellFormed(B) && EffortsAgree(B, h, efforts, total) && i < |donors|
    requires forall f: nat :: f in donors <==> f < |B.soldiers| && AboveMean(B, EffortOf(B, h, f), total)
    requires forall k: nat | k < |donors| :: donors[k] < |B.soldiers|
    requires forall k: nat, m: nat | k < m < |donors| :: efforts[donors[m]] <= efforts[donors[k]]
    requires DonorsRejected(B, h, donors, i)
    ensures BestDonor(B, h, donors[i])
  {
    forall f: nat | f < |B.soldiers| && !NoDuty(B, h, f) ensures EffortOf(B, h, f) <= EffortOf(B, h, donors[i]) {
      if f !in donors {
        NotAboveNotDonor(B, h, f);
      }
      var k: nat :| k < |donors| && donors[k] == f;
    }
  }

  lemma AllDonorsRejected(B: Board, h: Holding, total: int, donors: seq<nat>)
    requires WellFormed(B) && total == TotalEffort(B, h)
    requires forall f: nat :: f in donors <==> f < |B.soldiers| && AboveMean(B, EffortOf(B, h, f), total)
    requires DonorsRejected(B, h, donors, |donors|)
    ensures NoTransfer(B, h)
  {
    forall f: nat ensures NoDuty(B, h, f) {
      if f in donors {
        var k: nat :| k < |donors| && donors[k] == f;
      } else {
        NotAboveNotDonor(B, h, f);
      }
    }
  }

  /** The first improving transfer in the pass's order, or the knowledge that there is none. */
  method FindTransfer(B: Board, ghost h: Holding, soldierDuties: seq<set<nat>>, efforts: seq<int>, total: int,
                      allSet: seq<set<int>>, allSorted: seq<seq<int>>, realSorted: seq<seq<int>>)
    returns (found: bool, from: nat, di: nat, to: nat)
    requires WellFormed(B) && Assigns(B, h) && EffortsAgree(B, h, efforts, total)
    requires DatesAgree(B, h, allSet, allSorted, realSorted) && HeldAgree(B, h, soldierDuties)
    ensures found ==> Acceptable(B, h, from, di, to) && from < |B.soldiers|
    ensures found ==> BestForDonor(B, h, from, di, to) && BestDonor(B, h, from)
    ensures !found ==> NoTransfer(B, h)
  {
    found, from, di, to := false, 0, 0, 0;
    var donors := Donors(B, h, efforts, total);
    var i: nat := 0;
    while i < |donors|
      invariant i <= |donors|
      invariant DonorsRejected(B, h, donors, i)
    {
      assert donors[i] in donors;
      found, di, to := FindForDonor(B, h, efforts, total, soldierDuties[donors[i]], allSet, allSorted, realSorted,
        donors[i]);
      if found {
        from := donors[i];
        FirstDonorIsBest(B, h, efforts, total, donors, i);
        return;
      }
      RejectDonor(B, h, donors, i);
      i := i + 1;
    }
    AllDonorsRejected(B, h, total, donors);
  }
}
