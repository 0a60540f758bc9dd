/** The state of the swap pass and its main loop. */
module SwapRun {
  import opened Domain
  import opened Sorting
  import opened SwapModel
  import opened SwapPass
  import opened SwapCaches
  import opened SwapGoal

  /** Two entries of a per-soldier table replaced. */
  function Replaced<T>(s: seq<T>, i: nat, a: T, j: nat, b: T): (r: seq<T>)
    requires i < |s| && j < |s| && i != j
    ensures |r| == |s| && r[i] == a && r[j] == b
    ensures forall k: nat | k < |s| && k != i && k != j :: r[k] == s[k]
  {
    s[i := a][j := b]
  }

  lemma HeldAfter(B: Board, h: Holding, di: nat, to: nat, held: seq<set<nat>>)
    requires Assigns(B, h) && di in h && to < |B.soldiers| && to != h[di] && HeldAgree(B, h, held)
    ensures HeldAgree(B, h[di := to], Replaced(held, h[di], held[h[di]] - {di}, to, held[to] + {di}))
  {
    MoveHoldings(B, h, di, to);
  }

  lemma EffortsAgreeAfter(B: Board, h: Holding, from: nat, di: nat, to: nat, efforts: seq<int>, total: int)
    requires WellFormed(B) && CanMove(B, h, di, to) && h[di] == from && EffortsAgree(B, h, efforts, total)
    ensures EffortsAgree(B, h[di := to],
                         Replaced(efforts, from, Relieved(B, from, di, efforts[from]), to,
                           Burdened(B, to, di, efforts[to])),
                         Shifted(B, from, to, di, total))
  {
    EffortsMoved(B, h, di, to);
    TotalMoved(B, h, di, to);
    var e := Replaced(efforts, from, Relieved(B, from, di, efforts[from]), to, Burdened(B, to, di, efforts[to]));
    forall si: nat | si < |e| ensures e[si] == EffortOf(B, h[di := to], si) {
      assert efforts[si] == EffortOf(B, h, si);
    }
  }

  lemma DatesAfter(B: Board, h: Holding, from: nat, di: nat, to: nat,
                   allSet: seq<set<int>>, allSorted: seq<seq<int>>, realSorted: seq<seq<int>>,
                   allTo: seq<int>, realTo: seq<int>)
    requires CanMove(B, h, di, to) && h[di] == from && NoDoubleBooking(B, h)
      && DatesAgree(B, h, allSet, allSorted, realSorted)
    requires allTo == SortedSet(allSet[to] + DutyDays(B.duties[di]))
    requires realTo == if B.duties[di].isReserve then realSorted[to]
                       else SortedSet(DaysOf(B, h, to, true) + DutyDays(B.duties[di]))
    ensures var days := DutyDays(B.duties[di]);
            DatesAgree(B, h[di := to],
                       Replaced(allSet, from, allSet[from] - days, to, allSet[to] + days),
                       Replaced(allSorted, from, SortedSet(allSet[from] - days), to, allTo),
                       Replaced(realSorted, from, RealWithout(realSorted[from], B.duties[di]), to, realTo))
  {
    var days := DutyDays(B.duties[di]);
    var s := Replaced(allSet, from, allSet[from] - days, to, allSet[to] + days);
    var a := Replaced(allSorted, from, SortedSet(allSet[from] - days), to, allTo);
    var r := Replaced(realSorted, from, RealWithout(realSorted[from], B.duties[di]), to, realTo);
    forall si: nat | si < |B.soldiers| ensures DatesAt(B, h[di := to], si, s[si], a[si], r[si]) {
      assert DatesAt(B, h, si, allSet[si], allSorted[si], realSorted[si]);
      if si == from {
        DatesOfDonor(B, h, di, to, allSet[si], allSorted[si], realSorted[si]);
      } else if si == to {
        DatesOfRecipient(B, h, di, to, allSet[si], allSorted[si], realSorted[si], allTo, realTo);
      } else {
        DatesOfOther(B, h, di, to, si, allSet[si], allSorted[si], realSorted[si]);
      }
    }
  }

  /** Nobody is double-booked, and every cache equals its recomputation. */
  ghost predicate Agree(B: Board, h: Holding, held: seq<set<nat>>, allSet: seq<set<int>>, allSorted: seq<seq<int>>,
                        realSorted: seq<seq<int>>, efforts: seq<int>, total: int) {
    && WellFormed(B) && Assigns(B, h) && NoDoubleBooking(B, h)
    && HeldAgree(B, h, held)
    && DatesAgree(B, h, allSet, allSorted, realSorted)
    && EffortsAgree(B, h, efforts, total)
  }

  class Caches {
    const B: Board
    var assignedTo: Holding
    var soldierDuties: seq<set<nat>>
    var allSet: seq<set<int>>
    var allSorted: seq<seq<int>>
    var realSorted: seq<seq<int>>
    var efforts: seq<int>
    var totalEffort: int

    ghost predicate Valid()
      reads this
    {
      Agree(B, assignedTo, soldierDuties, allSet, allSorted, realSorted, efforts, totalEffort)
    }

    /** Caches built up from the input assignments. */
    constructor (B: Board, roster: Roster)
      requires WellFormed(B) && Given(B, roster)
      ensures Valid() && this.B == B && assignedTo == HoldingOf(roster)
    {
      this.B := B;
      var h, held := BuildHoldings(B, roster);
      var sets, sorted, realDays := BuildDates(B, h, held);
      var efforts', total := BuildEfforts(B, h, held);
      assignedTo, soldierDuties := h, held;
      allSet, allSorted, realSorted := sets, sorted, realDays;
      efforts, totalEffort := efforts', total;
    }

    /** Applies an accepted transfer to the assignment maps and, incrementally, to every cache. */
    method Transfer(from: nat, di: nat, to: nat)
      requires Valid() && Acceptable(B, assignedTo, from, di, to)
      modifies this
      ensures Valid() && assignedTo == old(assignedTo)[di := to]
    {
      AcceptableMoves(B, assignedTo, from, di, to);
      MoveKeepsApart(B, assignedTo, di, to);
      var sets, sorted, realDays := MovedDates(B, assignedTo, from, di, to, allSet, allSorted, realSorted);
      var held, efforts', total := MovedTotals(B, assignedTo, from, di, to, soldierDuties, efforts, totalEffort);
      assert Agree(B, assignedTo[di := to], held, sets, sorted, realDays, efforts', total);
      Install(assignedTo[di := to], held, sets, sorted, realDays, efforts', total);
    }

    method Install(h: Holding, held: seq<set<nat>>, sets: seq<set<int>>, sorted: seq<seq<int>>,
                   realDays: seq<seq<int>>, efforts': seq<int>, total: int)
      modifies this
      ensures assignedTo == h && soldierDuties == held && allSet == sets && allSorted == sorted
      ensures realSorted == realDays && efforts == efforts' && totalEffort == total
    {
      assignedTo, soldierDuties := h, held;
      allSet, allSorted, realSorted := sets, sorted, realDays;
      efforts, totalEffort := efforts', total;
    }

    /** One iteration: the first improving transfer is applied, or there is none. */
    method Improve() returns (moved: bool, ghost from: nat, ghost di: nat, ghost to: nat)
      requires Valid()
      modifies this
      ensures Valid()
      ensures moved ==> Acceptable(B, old(assignedTo), from, di, to) && assignedTo == old(assignedTo)[di := to]
      ensures moved ==> from < |B.soldiers| && BestDonor(B, old(assignedTo), from)
      ensures moved ==> BestForDonor(B, old(assignedTo), from, di, to)
      ensures !moved ==> assignedTo == old(assignedTo) && NoTransfer(B, assignedTo)
    {
      var donor, duty, recipient;
      moved, donor, duty, recipient := FindTransfer(B, assignedTo, soldierDuties, efforts, totalEffort, allSet,
        allSorted, realSorted);
      from, di, to := donor, duty, recipient;
      if moved {
        Transfer(donor, duty, recipient);
      }
    }
  }

  /** The donor's dates rebuilt without the duty's days, the recipient's with them inserted. */
  method MovedDates(B: Board, ghost h: Holding, from: nat, di: nat, to: nat,
                    allSet: seq<set<int>>, allSorted: seq<seq<int>>, realSorted: seq<seq<int>>)
    returns (allSet': seq<set<int>>, allSorted': seq<seq<int>>, realSorted': seq<seq<int>>)
    requires CanMove(B, h, di, to) && h[di] == from && NoDoubleBooking(B, h)
    requires DatesAgree(B, h, allSet, allSorted, realSorted)
    ensures DatesAgree(B, h[di := to], allSet', allSorted', realSorted')
  {
    var d, days := B.duties[di], DutyDays(B.duties[di]);
    assert DatesAt(B, h, to, allSet[to], allSorted[to], realSorted[to]);
    var allTo, realTo := InsertInto(B, h, di, to, allSet[to], allSorted[to], realSorted[to]);
    DatesAfter(B, h, from, di, to, allSet, allSorted, realSorted, allTo, realTo);
    realSorted' := Replaced(realSorted, from, RealWithout(realSorted[from], d), to, realTo);
    allSorted' := Replaced(allSorted, from, SortedSet(allSet[from] - days), to, allTo);
    allSet' := Replaced(allSet, from, allSet[from] - days, to, allSet[to] + days);
  }

  method MovedTotals(B: Board, ghost h: Holding, from: nat, di: nat, to: nat,
                     held: seq<set<nat>>, efforts: seq<int>, total: int)
    returns (held': seq<set<nat>>, efforts': seq<int>, total': int)
    requires WellFormed(B) && CanMove(B, h, di, to) && h[di] == from
    requires HeldAgree(B, h, held) && EffortsAgree(B, h, efforts, total)
    ensures HeldAgree(B, h[di := to], held') && EffortsAgree(B, h[di := to], efforts', total')
  {
    HeldAfter(B, h, di, to, held);
    EffortsAgreeAfter(B, h, from, di, to, efforts, total);
    held' := Replaced(held, from, held[from] - {di}, to, held[to] + {di});
    efforts' := Replaced(efforts, from, Relieved(B, from, di, efforts[from]), to, Burdened(B, to, di, efforts[to]));
    total' := Shifted(B, from, to, di, total);
  }

  /** The recipient's two sorted lists after inserting the duty's days. */
  method InsertInto(B: Board, ghost h: Holding, di: nat, to: nat, allSet: set<int>, allSorted: seq<int>,
                    realSorted: seq<int>)
    returns (allTo: seq<int>, realTo: seq<int>)
    requires CanMove(B, h, di, to)
    requires allSet == DaysOf(B, h, to, false) && allSorted == SortedSet(allSet)
    requires realSorted == SortedSet(DaysOf(B, h, to, true))
    ensures allTo == SortedSet(allSet + DutyDays(B.duties[di]))
    ensures realTo == if B.duties[di].isReserve then realSorted
                      else SortedSet(DaysOf(B, h, to, true) + DutyDays(B.duties[di]))
  {
    var d := B.duties[di];
    RealDaysAreDays(B, h, to);
    allTo := InsertDays(allSorted, allSet, d.start, d.end);
    realTo := realSorted;
    if !d.isReserve {
      realTo := InsertDays(realSorted, DaysOf(B, h, to, true), d.start, d.end);
    }
  }

  // ----- the pass -----

  /** What a sequence of accepted transfers keeps. */
  ghost predicate Improves(B: Board, before: Holding, after: Holding, transfers: nat)
    requires WellFormed(B)
  {
    && Assigns(B, before) && Assigns(B, after) && after.Keys == before.Keys
    && (forall di: nat | di in before && after[di] != before[di] :: after[di] in B.eligible[di])
    && (EqualRates(B) ==>
          && TotalEffort(B, after) == TotalEffort(B, before)
          && L1(B, after, TotalEffort(B, after)) + transfers <= L1(B, before, TotalEffort(B, before))
          && forall lo: int, hi: int | EffortsWithin(B, before, lo, hi) :: EffortsWithin(B, after, lo, hi))
  }

  lemma ImprovesMore(B: Board, before: Holding, h: Holding, n: nat, from: nat, di: nat, to: nat)
    requires WellFormed(B) && Improves(B, before, h, n) && Acceptable(B, h, from, di, to)
    ensures Improves(B, before, h[di := to], n + 1)
  {
    AcceptableMoves(B, h, from, di, to);
    MoveHoldings(B, h, di, to);
    if EqualRates(B) {
      TotalAtEqualRates(B, h, di, to);
      GainfulLowersL1(B, h, di, to);
      forall lo: int, hi: int | EffortsWithin(B, before, lo, hi) ensures EffortsWithin(B, h[di := to], lo, hi) {
        GainfulAtEqualRates(B, h, di, to, lo, hi);
      }
    }
  }

  // ----- density over a whole pass -----

  ghost predicate OneDayDuties(B: Board) {
    forall di: nat | di < |B.duties| :: B.duties[di].end == B.duties[di].start + 1
  }

  /** The window holds at most its cap, or no more than before. */
  ghost predicate WindowKept(B: Board, before: Holding, after: Holding, si: nat, realOnly: bool, ws: int, width: nat,
                             cap: int)
    requires si < |B.soldiers|
  {
    || Load(B, after, si, realOnly, ws, width) <= cap
    || Load(B, after, si, realOnly, ws, width) <= Load(B, before, si, realOnly, ws, width)
  }

  ghost predicate WindowsKept(B: Board, before: Holding, after: Holding, si: nat, ws: int)
    requires si < |B.soldiers|
  {
    && WindowKept(B, before, after, si, true, ws, B.caps.Wt, B.caps.T)
    && WindowKept(B, before, after, si, false, ws, B.caps.Wr, B.caps.R)
  }

  ghost predicate NoDenser(B: Board, before: Holding, after: Holding) {
    forall si: nat, ws: int | si < |B.soldiers| :: WindowsKept(B, before, after, si, ws)
  }

  /** A window that a one-day duty touches had room for it; the others do not notice it. */
  lemma RecipientWindowKept(B: Board, h: Holding, di: nat, to: nat, realOnly: bool, ws: int, width: nat, cap: int)
    requires CanMove(B, h, di, to) && B.duties[di].end == B.duties[di].start + 1
    requires (realOnly && B.duties[di].isReserve) || RoomForOne(B, h, di, to, realOnly, width, cap)
    ensures WindowKept(B, h, h[di := to], to, realOnly, ws, width, cap)
  {
    if Touches(B.duties[di], ws, width) && !(realOnly && B.duties[di].isReserve) {
      RecipientDensity(B, h, di, to, realOnly, ws, width, cap);
    } else {
      LoadGained(B, h, di, to, realOnly, ws, width);
      if !Touches(B.duties[di], ws, width) {
        OneDayOverlap(B.duties[di], ws, width);
      }
    }
  }

  lemma AcceptedHasRoom(B: Board, h: Holding, from: nat, di: nat, to: nat)
    requires WellFormed(B) && OneDayDuties(B) && Acceptable(B, h, from, di, to)
    ensures B.duties[di].end == B.duties[di].start + 1
    ensures B.duties[di].isReserve || RoomForOne(B, h, di, to, true, B.caps.Wt, B.caps.T)
    ensures RoomForOne(B, h, di, to, false, B.caps.Wr, B.caps.R)
  {
    assert B.duties[di].start in DutyDays(B.duties[di]);
  }

  /** An accepted transfer of a one-day duty keeps each window within its cap or no fuller. */
  lemma TransferKeepsWindows(B: Board, h: Holding, from: nat, di: nat, to: nat, si: nat, ws: int)
    requires WellFormed(B) && OneDayDuties(B) && Acceptable(B, h, from, di, to) && NoDoubleBooking(B, h)
      && si < |B.soldiers|
    ensures WindowsKept(B, h, h[di := to], si, ws)
  {
    AcceptableMoves(B, h, from, di, to);
    AcceptedHasRoom(B, h, from, di, to);
    if si == to {
      RecipientWindowKept(B, h, di, to, true, ws, B.caps.Wt, B.caps.T);
      RecipientWindowKept(B, h, di, to, false, ws, B.caps.Wr, B.caps.R);
    } else {
      OthersDensity(B, h, di, to, si, true, ws, B.caps.Wt);
      OthersDensity(B, h, di, to, si, false, ws, B.caps.Wr);
    }
  }

  lemma NoDenserMore(B: Board, before: Holding, h: Holding, from: nat, di: nat, to: nat)
    requires WellFormed(B) && OneDayDuties(B) && NoDenser(B, before, h)
    requires Acceptable(B, h, from, di, to) && NoDoubleBooking(B, h)
    ensures NoDenser(B, before, h[di := to])
  {
    var after := h[di := to];
    forall si: nat, ws: int | si < |B.soldiers| ensures WindowsKept(B, before, after, si, ws) {
      assert WindowsKept(B, before, h, si, ws);
      TransferKeepsWindows(B, h, from, di, to, si, ws);
    }
  }

  /** What a pass promises about the holdings it starts and ends with. */
  ghost predicate Promised(B: Board, before: Holding, after: Holding, transfers: nat)
    requires WellFormed(B)
  {
    Improves(B, before, after, transfers) && (OneDayDuties(B) ==> NoDenser(B, before, after))
  }

  method ImproveOnce(caches: Caches, ghost before: Holding, ghost n: nat) returns (moved: bool)
    requires caches.Valid() && WellFormed(caches.B) && Promised(caches.B, before, caches.assignedTo, n)
    modifies caches
    ensures caches.Valid()
    ensures moved ==> Promised(caches.B, before, caches.assignedTo, n + 1)
    ensures !moved ==> Promised(caches.B, before, caches.assignedTo, n) && NothingHelps(caches.B, caches.assignedTo)
  {
    ghost var h := caches.assignedTo;
    ghost var from, di, to;
    moved, from, di, to := caches.Improve();
    if moved {
      ImprovesMore(caches.B, before, h, n, from, di, to);
      if OneDayDuties(caches.B) {
        NoDenserMore(caches.B, before, h, from, di, to);
      }
    } else {
      NoTransferNothingHelps(caches.B, caches.assignedTo);
    }
  }

  lemma NothingMoved(B: Board, h: Holding)
    requires WellFormed(B) && Assigns(B, h)
    ensures Promised(B, h, h, 0)
  {
  }

  // ----- the result -----

  /** The roster with its duties in the same order, each with its present holder. */
  function Reassigned(roster: Roster, h: Holding): Roster
    requires forall i | 0 <= i < |roster| :: roster[i].0 in h
  {
    seq(|roster|, i requires 0 <= i < |roster| => (roster[i].0, h[roster[i].0]))
  }

  lemma RosterDutiesHeld(roster: Roster, h: Holding)
    requires h.Keys == HoldingOf(roster).Keys
    ensures forall i | 0 <= i < |roster| :: roster[i].0 in h
  {
    forall i | 0 <= i < |roster| ensures roster[i].0 in h {
      assert roster[i].0 in HoldingOf(roster).Keys;
    }
  }

  lemma {:induction false} ReassignedValues(roster: Roster, h: Holding)
    requires forall i | 0 <= i < |roster| :: roster[i].0 in h
    ensures HoldingOf(Reassigned(roster, h)).Keys == HoldingOf(roster).Keys
    ensures forall k | k in HoldingOf(Reassigned(roster, h)) :: k in h && HoldingOf(Reassigned(roster, h))[k] == h[k]
  {
    if roster != [] {
      var front := roster[..|roster| - 1];
      ReassignedValues(front, h);
      assert Reassigned(roster, h)[..|roster| - 1] == Reassigned(front, h);
    }
  }

  lemma SameMap(a: Holding, b: Holding)
    requires a.Keys == b.Keys && forall k | k in a :: k in b && a[k] == b[k]
    ensures a == b
  {
  }

  lemma ReassignedHolding(B: Board, roster: Roster, h: Holding)
    requires Listed(B, roster) && h.Keys == HoldingOf(roster).Keys && Assigns(B, h)
    ensures forall i | 0 <= i < |roster| :: roster[i].0 in h
    ensures Listed(B, Reassigned(roster, h)) && HoldingOf(Reassigned(roster, h)) == h
  {
    RosterDutiesHeld(roster, h);
    ReassignedValues(roster, h);
    SameMap(HoldingOf(Reassigned(roster, h)), h);
  }

  /**
   At most three transfers per soldier. Exactly the input's duties are assigned, in the same order;
   moved duties go to eligible soldiers, nobody becomes double-booked; at equal rates every
   transfer brings the population closer to its mean inside the range of efforts it started with;
   with one-day duties no window gets fuller than its cap or than it was. A pass that stops early
   leaves no allowed transfer that would bring the population closer to its mean.
   */
  method Run(B: Board, roster: Roster) returns (result: Roster, transfers: nat)
    requires WellFormed(B) && Given(B, roster)
    ensures Given(B, result) && OneDutyADay(B, HoldingOf(result))
    ensures |result| == |roster| && forall i | 0 <= i < |roster| :: result[i].0 == roster[i].0
    ensures Improves(B, HoldingOf(roster), HoldingOf(result), transfers)
    ensures OneDayDuties(B) ==> NoDenser(B, HoldingOf(roster), HoldingOf(result))
    ensures transfers <= 3 * |B.soldiers|
    ensures |roster| < 2 || |B.soldiers| < 2 ==> result == roster && transfers == 0
    ensures transfers < 3 * |B.soldiers| && |roster| >= 2 && |B.soldiers| >= 2 ==> NothingHelps(B, HoldingOf(result))
  {
    result, transfers := roster, 0;
    ghost var h := HoldingOf(roster);
    NothingMoved(B, h);
    NoDoubleBookingMeans(B, h);
    if |roster| < 2 || |B.soldiers| < 2 {
      return;
    }
    var caches := new Caches(B, roster);
    while transfers < 3 * |B.soldiers|
      invariant fresh(caches) && caches.B == B && caches.Valid()
      invariant transfers <= 3 * |B.soldiers|
      invariant Promised(B, h, caches.assignedTo, transfers)
      decreases 3 * |B.soldiers| - transfers
    {
      var moved := ImproveOnce(caches, h, transfers);
      if !moved {
        break;
      }
      transfers := transfers + 1;
    }
    ReassignedHolding(B, roster, caches.assignedTo);
    result := Reassigned(roster, caches.assignedTo);
    NoDoubleBookingMeans(B, HoldingOf(result));
  }
}
