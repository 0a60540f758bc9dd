/**
 The batched run: batches of each component are solved in turn against everything booked so
 far, and each component's leftovers get one more attempt. Whatever the solver answers, the
 accumulated roster keeps the run's safety properties.
 */
module InterleavedRun {
  import opened Domain
  import opened Sums
  import opened HardModel
  import opened Relaxation
  import opened Engine
  import opened Carry
  import opened Batches
  import Decomposition

  // ----- what a partial roster guarantees -----

  ghost predicate DistinctDuties(P: Problem) {
    forall i, j | 0 <= i < j < |P.duties| :: P.duties[i].id != P.duties[j].id
  }

  /** The pick clashes with none of the bookings published beforehand. */
  ghost predicate Rested(P: Problem, pick: (nat, nat)) {
    && pick.0 < |P.duties| && pick.1 < |P.soldiers|
    && forall e | e in P.existing :: !ClashesWithBooking(e, P.soldiers[pick.1].id, P.duties[pick.0])
  }

  /** Every pick is an eligible pair that leaves the rest after published bookings, and no duty is picked twice. */
  ghost predicate Proper(P: Problem, picks: seq<(nat, nat)>) {
    && (forall i | 0 <= i < |picks| :: Eligible(P, picks[i].0, picks[i].1) && Rested(P, picks[i]))
    && (forall i, j | 0 <= i < j < |picks| :: picks[i].0 != picks[j].0)
  }

  function Before(P: Problem, picks: seq<(nat, nat)>, n: nat): seq<Existing>
    requires Within(P, picks) && n <= |picks|
  {
    P.existing + Bookings(P, picks[..n])
  }

  /** The days of a duty are free for a soldier on top of the bookings. */
  ghost predicate DaysFree(P: Problem, pick: (nat, nat), es: seq<Existing>)
    requires pick.0 < |P.duties| && pick.1 < |P.soldiers|
  {
    DutyDays(P.duties[pick.0]) !! BookedDays(es, P.soldiers[pick.1].id, false)
  }

  /** Each duty was booked on days its soldier still had free. */
  ghost predicate FreeWhenBooked(P: Problem, picks: seq<(nat, nat)>)
    requires Within(P, picks)
  {
    forall i | 0 <= i < |picks| :: DaysFree(P, picks[i], Before(P, picks, i))
  }

  /** No window is above the highest cap a batch may use, unless it was so from the start. */
  ghost predicate WindowBounded(P: Problem, c: Ceilings, carry: seq<Existing>, id: Id, ws: int) {
    && WindowLoad(carry, id, true, ws, P.caps.Wt)
       <= Max(WindowLoad(P.existing, id, true, ws, P.caps.Wt), Max(P.caps.T, c.T))
    && WindowLoad(carry, id, false, ws, P.caps.Wr)
       <= Max(WindowLoad(P.existing, id, false, ws, P.caps.Wr), Max(P.caps.R, c.R))
  }

  ghost predicate DensityBounded(P: Problem, c: Ceilings, carry: seq<Existing>) {
    forall id: Id, ws: int :: WindowBounded(P, c, carry, id, ws)
  }

  /** Score that the picks bring to a soldier. */
  function ScoreOf(P: Problem, picks: seq<(nat, nat)>, si: nat): int {
    if picks == [] then 0
    else
      var last := picks[|picks| - 1];
      ScoreOf(P, picks[..|picks| - 1], si)
      + if last.1 == si && last.0 < |P.duties| then BlockScore(P.duties[last.0]) else 0
  }

  /** The working copies differ from the input only in their effort, by rate times assigned score. */
  ghost predicate EffortTracked(P: Problem, work: seq<Soldier>, picks: seq<(nat, nat)>) {
    && |work| == |P.soldiers|
    && forall si: nat | si < |work| ::
         work[si] == P.soldiers[si].(effortOffset :=
           P.soldiers[si].effortOffset + P.soldiers[si].effortPerMilli * ScoreOf(P, picks, si))
  }

  function AssignmentsOf(P: Problem, picks: seq<(nat, nat)>): seq<Assignment>
    requires Within(P, picks)
  {
    seq(|picks|, i requires 0 <= i < |picks| => Assignment(P.duties[picks[i].0].id, P.soldiers[picks[i].1].id))
  }

  /** Everything but the windows, which hold between batches only. */
  ghost predicate Booked(P: Problem, work: seq<Soldier>, carry: seq<Existing>, assignments: seq<Assignment>,
                         picks: seq<(nat, nat)>)
  {
    && Within(P, picks) && Proper(P, picks) && FreeWhenBooked(P, picks)
    && carry == P.existing + Bookings(P, picks)
    && assignments == AssignmentsOf(P, picks)
    && EffortTracked(P, work, picks)
  }

  ghost predicate Picked(picks: seq<(nat, nat)>, di: nat) {
    exists i: nat :: i < |picks| && picks[i].0 == di
  }

  // ----- consequences of the invariant -----

  /** Two duties of one soldier share no day. */
  lemma NeverDoubleBooked(P: Problem, picks: seq<(nat, nat)>, i: nat, j: nat)
    requires Within(P, picks) && FreeWhenBooked(P, picks)
    requires i < j < |picks| && picks[i].1 == picks[j].1
    ensures DutyDays(P.duties[picks[i].0]) !! DutyDays(P.duties[picks[j].0])
  {
    var es := Before(P, picks, j);
    assert DaysFree(P, picks[j], es);
    assert es[|P.existing| + i] == BookingOf(P.soldiers[picks[i].1].id, P.duties[picks[i].0]);
    ListedIsBooked(es, |P.existing| + i, P.soldiers[picks[j].1].id);
  }

  /** No duty falls on a day on which its soldier was booked beforehand. */
  lemma NeverOnBookedDay(P: Problem, picks: seq<(nat, nat)>, j: nat)
    requires Within(P, picks) && FreeWhenBooked(P, picks) && j < |picks|
    ensures DutyDays(P.duties[picks[j].0]) !! BookedDays(P.existing, P.soldiers[picks[j].1].id, false)
  {
    var es := Before(P, picks, j);
    assert DaysFree(P, picks[j], es);
    assert es[..|P.existing|] == P.existing;
    PrefixIsBooked(es, |P.existing|, P.soldiers[picks[j].1].id);
  }

  /** Each duty starts when the rest after all bookings published beforehand is over. */
  lemma NeverUnrested(P: Problem, picks: seq<(nat, nat)>, j: nat, e: Existing)
    requires Proper(P, picks) && j < |picks| && e in P.existing && e.soldier == P.soldiers[picks[j].1].id
    requires e.restEnd.RestEnd? && e.restHours > 0
    ensures Instant(P.duties[picks[j].0].start, P.duties[picks[j].0].startTime)
            >= Instant(e.restEnd.day, e.restEnd.time) + e.restHours * 60
  {
    assert Rested(P, picks[j]);
  }

  lemma {:induction false} ListedIsBooked(es: seq<Existing>, k: nat, id: Id)
    requires k < |es| && es[k].soldier == id
    ensures Days(es[k].start, es[k].end) <= BookedDays(es, id, false)
    decreases |es|
  {
    if k < |es| - 1 {
      assert es[..|es| - 1][k] == es[k];
      ListedIsBooked(es[..|es| - 1], k, id);
    }
  }

  lemma {:induction false} PrefixIsBooked(es: seq<Existing>, k: nat, id: Id)
    requires k <= |es|
    ensures BookedDays(es[..k], id, false) <= BookedDays(es, id, false)
    decreases |es|
  {
    if k < |es| {
      assert es[..|es| - 1][..k] == es[..k];
      PrefixIsBooked(es[..|es| - 1], k, id);
    } else {
      assert es[..k] == es;
    }
  }

  // ----- one more pick -----

  lemma ProperSnoc(P: Problem, picks: seq<(nat, nat)>, pick: (nat, nat))
    requires Proper(P, picks) && Eligible(P, pick.0, pick.1) && Rested(P, pick) && !Picked(picks, pick.0)
    ensures Proper(P, picks + [pick])
  {
    var all := picks + [pick];
    forall i | 0 <= i < |all| ensures Eligible(P, all[i].0, all[i].1) && Rested(P, all[i]) {
      assert i < |picks| ==> all[i] == picks[i];
    }
    forall i, j | 0 <= i < j < |all| ensures all[i].0 != all[j].0 {
      assert all[i] == picks[i];
    }
  }

  lemma FreeSnocAt(P: Problem, picks: seq<(nat, nat)>, all: seq<(nat, nat)>, i: nat)
    requires Within(P, picks) && Within(P, all) && |all| == |picks| + 1 && all[..|picks|] == picks && i <= |picks|
    requires DaysFree(P, all[i], Before(P, picks, i))
    ensures DaysFree(P, all[i], Before(P, all, i))
  {
    assert all[..i] == picks[..i];
  }

  lemma FreeSnoc(P: Problem, picks: seq<(nat, nat)>, all: seq<(nat, nat)>)
    requires Within(P, picks) && FreeWhenBooked(P, picks)
    requires Within(P, all) && |all| == |picks| + 1 && all[..|picks|] == picks
    requires DaysFree(P, all[|picks|], Before(P, picks, |picks|))
    ensures FreeWhenBooked(P, all)
  {
    forall i: nat | i < |all| ensures DaysFree(P, all[i], Before(P, all, i)) {
      if i < |picks| {
        assert all[i] == picks[i];
      }
      FreeSnocAt(P, picks, all, i);
    }
  }

  /** The soldier's effort once the duty is assigned. */
  function AfterServing(s: Soldier, d: Duty): Soldier {
    s.(effortOffset := s.effortOffset + s.effortPerMilli * BlockScore(d))
  }

  lemma EffortSnoc(P: Problem, work: seq<Soldier>, picks: seq<(nat, nat)>, pick: (nat, nat))
    requires EffortTracked(P, work, picks)
    requires pick.0 < |P.duties| && pick.1 < |P.soldiers|
    ensures EffortTracked(P, work[pick.1 := AfterServing(work[pick.1], P.duties[pick.0])], picks + [pick])
  {
    var all := picks + [pick];
    assert all[..|all| - 1] == picks;
    var rate, before, more := work[pick.1].effortPerMilli, ScoreOf(P, picks, pick.1), BlockScore(P.duties[pick.0]);
    assert rate * before + rate * more == rate * (before + more);
  }

  // ----- one batch -----

  ghost predicate IsBatch(P: Problem, batch: seq<nat>, soldiers: seq<nat>) {
    && Below(batch, |P.duties|) && NoRepeats(batch)
    && Below(soldiers, |P.soldiers|) && Increasing(soldiers)
  }

  /** The sub-problem of a batch: its duties, its component's soldiers, everything booked so far. */
  function BatchProblem(P: Problem, work: seq<Soldier>, carry: seq<Existing>, batch: seq<nat>,
                        soldiers: seq<nat>): Problem
    requires |work| == |P.soldiers| && Below(batch, |P.duties|) && Below(soldiers, |work|)
  {
    Problem(Decomposition.Pick(work, soldiers), Decomposition.Pick(P.duties, batch), carry, P.caps, P.elig)
  }

  /** A pair of batch positions as a pair of run positions. */
  function Global(batch: seq<nat>, soldiers: seq<nat>, pick: (nat, nat)): (nat, nat) {
    (if pick.0 < |batch| then batch[pick.0] else 0, if pick.1 < |soldiers| then soldiers[pick.1] else 0)
  }

  function AllGlobal(batch: seq<nat>, soldiers: seq<nat>, picks: seq<(nat, nat)>): (r: seq<(nat, nat)>)
    ensures |r| == |picks| && forall i | 0 <= i < |r| :: r[i] == Global(batch, soldiers, picks[i])
  {
    seq(|picks|, i requires 0 <= i < |picks| => Global(batch, soldiers, picks[i]))
  }

  /** The pick is an eligible pair of unbooked duty and soldier with its days free, and leaves the published rest. */
  ghost predicate Bookable(P: Problem, carry: seq<Existing>, picks: seq<(nat, nat)>, pick: (nat, nat)) {
    && Eligible(P, pick.0, pick.1) && Rested(P, pick)
    && DaysFree(P, pick, carry)
    && !Picked(picks, pick.0)
  }

  lemma BatchPickBookable(P: Problem, work: seq<Soldier>, carry: seq<Existing>, picks: seq<(nat, nat)>,
                          batch: seq<nat>, soldiers: seq<nat>, g: Rung, x: Point, cov: Coverage, pick: (nat, nat))
    requires EffortTracked(P, work, picks) && IsBatch(P, batch, soldiers)
    requires forall a: nat | a < |batch| :: !Picked(picks, batch[a])
    requires HardSat(AtRung(BatchProblem(P, work, carry, batch, soldiers), g), x, cov) && pick in x
    requires P.existing <= carry
    ensures pick.0 < |batch| && pick.1 < |soldiers|
    ensures Bookable(P, carry, picks, Global(batch, soldiers, pick))
  {
    var Q := AtRung(BatchProblem(P, work, carry, batch, soldiers), g);
    assert Eligible(Q, pick.0, pick.1);
    assert (pick.0, pick.1) in x;
    assert SoldierOk(Q, x, pick.1);
    assert work[soldiers[pick.1]].id == P.soldiers[soldiers[pick.1]].id;
    assert BookedRestOk(Q, x, pick.1);
    forall e | e in P.existing
      ensures !ClashesWithBooking(e, P.soldiers[soldiers[pick.1]].id, P.duties[batch[pick.0]])
    {
      assert e in carry;
    }
  }

  /** Choosing both for one soldier is only possible on different days. */
  lemma BatchPicksApart(P: Problem, work: seq<Soldier>, carry: seq<Existing>,
                        batch: seq<nat>, soldiers: seq<nat>, g: Rung, x: Point, cov: Coverage, p: (nat, nat),
                        q: (nat, nat))
    requires |work| == |P.soldiers| && IsBatch(P, batch, soldiers)
    requires HardSat(AtRung(BatchProblem(P, work, carry, batch, soldiers), g), x, cov) && p in x && q in x
    requires p.0 < q.0 < |batch| && p.1 == q.1 < |soldiers|
    ensures DutyDays(P.duties[batch[p.0]]) !! DutyDays(P.duties[batch[q.0]])
  {
    var Q := AtRung(BatchProblem(P, work, carry, batch, soldiers), g);
    assert (p.0, p.1) in x && (q.0, p.1) in x;
    assert SoldierOk(Q, x, p.1);
  }

  lemma StaysBookable(P: Problem, carry: seq<Existing>, picks: seq<(nat, nat)>, done: (nat, nat), next: (nat, nat))
    requires Bookable(P, carry, picks, next)
    requires done.0 < |P.duties| && done.1 < |P.soldiers| && done.0 != next.0 && DistinctSoldiers(P)
    requires done.1 == next.1 ==> DutyDays(P.duties[done.0]) !! DutyDays(P.duties[next.0])
    ensures Bookable(P, carry + [BookingOf(P.soldiers[done.1].id, P.duties[done.0])], picks + [done], next)
  {
    BookedDaysAppend(carry, BookingOf(P.soldiers[done.1].id, P.duties[done.0]), P.soldiers[next.1].id, false);
    SameSoldier(P, done.1, next.1);
    forall i: nat | i < |picks + [done]| ensures (picks + [done])[i].0 != next.0 {
      if i < |picks| {
        assert (picks + [done])[i] == picks[i];
      }
    }
  }

  lemma AssignmentsSnoc(P: Problem, picks: seq<(nat, nat)>, pick: (nat, nat))
    requires Within(P, picks) && Within(P, picks + [pick])
    requires pick.0 < |P.duties| && pick.1 < |P.soldiers|
    ensures AssignmentsOf(P, picks + [pick])
            == AssignmentsOf(P, picks) + [Assignment(P.duties[pick.0].id, P.soldiers[pick.1].id)]
  {
  }

  /** Booking one pick keeps everything but the windows. */
  lemma BookedSnoc(P: Problem, work: seq<Soldier>, carry: seq<Existing>, assignments: seq<Assignment>,
                   picks: seq<(nat, nat)>, pick: (nat, nat), all: seq<(nat, nat)>, work': seq<Soldier>,
                   carry': seq<Existing>, assignments': seq<Assignment>)
    requires Booked(P, work, carry, assignments, picks) && Bookable(P, carry, picks, pick)
    requires all == picks + [pick]
    requires work' == work[pick.1 := AfterServing(work[pick.1], P.duties[pick.0])]
    requires carry' == carry + [BookingOf(P.soldiers[pick.1].id, P.duties[pick.0])]
    requires assignments' == assignments + [Assignment(P.duties[pick.0].id, P.soldiers[pick.1].id)]
    ensures Booked(P, work', carry', assignments', all)
  {
    PicksSnoc(P, carry, picks, pick, all);
    EffortSnoc(P, work, picks, pick);
    BookingsSnoc(P, P.existing, picks, pick);
    AssignmentsSnoc(P, picks, pick);
  }

  lemma PicksSnoc(P: Problem, carry: seq<Existing>, picks: seq<(nat, nat)>, pick: (nat, nat), all: seq<(nat, nat)>)
    requires Within(P, picks) && Proper(P, picks) && FreeWhenBooked(P, picks)
    requires carry == P.existing + Bookings(P, picks) && Bookable(P, carry, picks, pick) && all == picks + [pick]
    ensures Within(P, all) && Proper(P, all) && FreeWhenBooked(P, all)
  {
    ProperSnoc(P, picks, pick);
    WithinSnoc(P, picks, pick);
    assert all[..|picks|] == picks && all[|picks|] == pick;
    FreeForPick(P, carry, picks, all);
  }

  lemma WithinSnoc(P: Problem, picks: seq<(nat, nat)>, pick: (nat, nat))
    requires Within(P, picks) && pick.0 < |P.duties| && pick.1 < |P.soldiers|
    ensures Within(P, picks + [pick])
  {
  }

  lemma FreeForPick(P: Problem, carry: seq<Existing>, picks: seq<(nat, nat)>, all: seq<(nat, nat)>)
    requires Within(P, picks) && FreeWhenBooked(P, picks) && carry == P.existing + Bookings(P, picks)
    requires Within(P, all) && |all| == |picks| + 1 && all[..|picks|] == picks
    requires DaysFree(P, all[|picks|], carry)
    ensures FreeWhenBooked(P, all)
  {
    assert picks[..|picks|] == picks;
    assert Before(P, picks, |picks|) == carry;
    FreeSnoc(P, picks, all);
  }

  /** After a batch, the windows of its soldiers obey the batch's caps, the others are as before. */
  lemma DensityAfterBatch(P: Problem, c: Ceilings, work: seq<Soldier>, carry: seq<Existing>, picks: seq<(nat, nat)>,
                          batch: seq<nat>, soldiers: seq<nat>, g: Rung, x: Point, cov: Coverage, id: Id, ws: int)
    requires DistinctSoldiers(P) && EffortTracked(P, work, picks) && IsBatch(P, batch, soldiers)
    requires WindowBounded(P, c, carry, id, ws)
    requires HardSat(AtRung(BatchProblem(P, work, carry, batch, soldiers), g), x, cov)
    requires g.R <= Max(P.caps.R, c.R) && g.T <= Max(P.caps.T, c.T)
    requires Within(P, AllGlobal(batch, soldiers, Rows(x, |batch|, |soldiers|)))
    ensures WindowBounded(P, c, carry + Bookings(P, AllGlobal(batch, soldiers, Rows(x, |batch|, |soldiers|))), id, ws)
  {
    var Q := AtRung(BatchProblem(P, work, carry, batch, soldiers), g);
    var rows := Rows(x, |batch|, |soldiers|);
    PointIsOnePerRow(Q, x, cov);
    RowsWithin(Q, x, |batch|);
    SubDistinct(P, work, picks, soldiers, Q);
    SameBookings(P, Q, batch, soldiers, rows);
    if b: nat :| b < |soldiers| && Q.soldiers[b].id == id {
      BatchSoldierDensity(P, c, carry, Q, x, cov, b, ws);
    } else {
      OtherSoldierDensity(P, c, carry, Q, rows, id, ws);
    }
  }

  /** A soldier of the batch: the batch's own caps hold. */
  lemma BatchSoldierDensity(P: Problem, c: Ceilings, carry: seq<Existing>, Q: Problem, x: Point, cov: Coverage, b: nat,
                            ws: int)
    requires HardSat(Q, x, cov) && DistinctSoldiers(Q) && b < |Q.soldiers| && Q.existing == carry
    requires Q.caps.Wt == P.caps.Wt && Q.caps.Wr == P.caps.Wr
    requires Q.caps.T <= Max(P.caps.T, c.T) && Q.caps.R <= Max(P.caps.R, c.R)
    requires WindowBounded(P, c, carry, Q.soldiers[b].id, ws)
    requires Within(Q, Rows(x, |Q.duties|, |Q.soldiers|))
    ensures WindowBounded(P, c, carry + Bookings(Q, Rows(x, |Q.duties|, |Q.soldiers|)), Q.soldiers[b].id, ws)
  {
    WindowAfterBatch(Q, x, cov, b, ws);
  }

  lemma OthersLoad(Q: Problem, carry: seq<Existing>, rows: seq<(nat, nat)>, id: Id, realOnly: bool, ws: int, width: nat)
    requires Within(Q, rows) && forall i | 0 <= i < |rows| :: Q.soldiers[rows[i].1].id != id
    ensures WindowLoad(carry + Bookings(Q, rows), id, realOnly, ws, width) == WindowLoad(carry, id, realOnly, ws, width)
  {
    BookingsOfOthers(Q, carry, rows, id, realOnly);
  }

  /** Anybody else: nothing is booked for him. */
  lemma OtherSoldierDensity(P: Problem, c: Ceilings, carry: seq<Existing>, Q: Problem, rows: seq<(nat, nat)>, id: Id,
                            ws: int)
    requires Within(Q, rows) && WindowBounded(P, c, carry, id, ws)
    requires forall b: nat | b < |Q.soldiers| :: Q.soldiers[b].id != id
    ensures WindowBounded(P, c, carry + Bookings(Q, rows), id, ws)
  {
    forall i | 0 <= i < |rows| ensures Q.soldiers[rows[i].1].id != id {
      assert rows[i].1 < |Q.soldiers|;
    }
    OthersLoad(Q, carry, rows, id, true, ws, P.caps.Wt);
    OthersLoad(Q, carry, rows, id, false, ws, P.caps.Wr);
  }

  lemma SubDistinct(P: Problem, work: seq<Soldier>, picks: seq<(nat, nat)>, soldiers: seq<nat>, Q: Problem)
    requires DistinctSoldiers(P) && EffortTracked(P, work, picks)
    requires Below(soldiers, |P.soldiers|) && Increasing(soldiers)
    requires Q.soldiers == Decomposition.Pick(work, soldiers)
    ensures DistinctSoldiers(Q)
  {
    forall i, j | 0 <= i < j < |Q.soldiers| ensures Q.soldiers[i].id != Q.soldiers[j].id {
      assert soldiers[i] < soldiers[j];
      assert work[soldiers[i]].id == P.soldiers[soldiers[i]].id;
      assert work[soldiers[j]].id == P.soldiers[soldiers[j]].id;
    }
  }

  lemma SameBookings(P: Problem, Q: Problem, batch: seq<nat>, soldiers: seq<nat>, rows: seq<(nat, nat)>)
    requires Below(batch, |P.duties|) && Below(soldiers, |P.soldiers|)
    requires |Q.duties| == |batch| && |Q.soldiers| == |soldiers|
    requires forall a: nat | a < |batch| :: Q.duties[a] == P.duties[batch[a]]
    requires forall b: nat | b < |soldiers| :: Q.soldiers[b].id == P.soldiers[soldiers[b]].id
    requires Within(Q, rows) && Within(P, AllGlobal(batch, soldiers, rows))
    ensures Bookings(P, AllGlobal(batch, soldiers, rows)) == Bookings(Q, rows)
  {
  }

  // ----- the run -----

  /** No booking is above the highest caps, and the roster is proper. */
  ghost predicate Safe(P: Problem, c: Ceilings, work: seq<Soldier>, carry: seq<Existing>,
                       assignments: seq<Assignment>, picks: seq<(nat, nat)>) {
    Booked(P, work, carry, assignments, picks) && DensityBounded(P, c, carry)
  }

  /** What is left of a batch to book: distinct duties, each still bookable, apart where they share a soldier. */
  ghost predicate Pending(P: Problem, carry: seq<Existing>, picks: seq<(nat, nat)>, todo: seq<(nat, nat)>) {
    && (forall i | 0 <= i < |todo| :: Bookable(P, carry, picks, todo[i]))
    && (forall i, j | 0 <= i < j < |todo| :: Apart(P, todo[i], todo[j]))
  }

  ghost predicate Apart(P: Problem, p: (nat, nat), q: (nat, nat)) {
    && p.0 != q.0 && p.0 < |P.duties| && q.0 < |P.duties|
    && (p.1 == q.1 ==> DutyDays(P.duties[p.0]) !! DutyDays(P.duties[q.0]))
  }

  lemma BatchPending(P: Problem, work: seq<Soldier>, carry: seq<Existing>, picks: seq<(nat, nat)>,
                     batch: seq<nat>, soldiers: seq<nat>, g: Rung, x: Point, cov: Coverage)
    requires EffortTracked(P, work, picks) && IsBatch(P, batch, soldiers)
    requires forall a: nat | a < |batch| :: !Picked(picks, batch[a])
    requires HardSat(AtRung(BatchProblem(P, work, carry, batch, soldiers), g), x, cov) && P.existing <= carry
    ensures Pending(P, carry, picks, AllGlobal(batch, soldiers, Rows(x, |batch|, |soldiers|)))
  {
    PointIsOnePerRow(AtRung(BatchProblem(P, work, carry, batch, soldiers), g), x, cov);
    var rows := Rows(x, |batch|, |soldiers|);
    RowsMembers(x, |batch|, |soldiers|);
    var todo := AllGlobal(batch, soldiers, rows);
    forall i | 0 <= i < |todo| ensures Bookable(P, carry, picks, todo[i]) {
      BatchPickBookable(P, work, carry, picks, batch, soldiers, g, x, cov, rows[i]);
    }
    forall i, j | 0 <= i < j < |todo| ensures Apart(P, todo[i], todo[j]) {
      assert rows[i].0 < rows[j].0;
      if todo[i].1 == todo[j].1 {
        Decomposition.IncreasingInjective(soldiers, rows[i].1, rows[j].1);
        BatchPicksApart(P, work, carry, batch, soldiers, g, x, cov, rows[i], rows[j]);
      }
    }
  }

  lemma PendingRest(P: Problem, carry: seq<Existing>, picks: seq<(nat, nat)>, todo: seq<(nat, nat)>)
    requires DistinctSoldiers(P) && Pending(P, carry, picks, todo) && todo != []
    ensures todo[0].0 < |P.duties| && todo[0].1 < |P.soldiers|
    ensures Pending(P, carry + [BookingOf(P.soldiers[todo[0].1].id, P.duties[todo[0].0])], picks + [todo[0]], todo[1..])
  {
    var rest := todo[1..];
    forall i | 0 <= i < |rest|
      ensures Bookable(P, carry + [BookingOf(P.soldiers[todo[0].1].id, P.duties[todo[0].0])], picks + [todo[0]],
        rest[i])
    {
      assert rest[i] == todo[i + 1] && Apart(P, todo[0], todo[i + 1]);
      StaysBookable(P, carry, picks, todo[0], rest[i]);
    }
  }

  lemma MoveHead<T>(base: seq<T>, done: seq<T>, rest: seq<T>)
    requires rest != []
    ensures done + rest == (done + [rest[0]]) + rest[1..]
    ensures base + done + [rest[0]] == base + (done + [rest[0]])
  {
  }

  // ----- what was asked -----

  /**
   One batch as it was put to the solver, and the point that its answer came to: the component it
   belongs to, whether it holds leftovers, and when the cancel event was last looked at before it.
   */
  datatype Offer = Offer(comp: nat, again: bool, looked: nat, batch: seq<nat>, soldiers: seq<nat>, x: Point)

  /** What the answers to these batches assign, one batch after the other. */
  function PicksOf(offers: seq<Offer>): seq<(nat, nat)> {
    if offers == [] then []
    else
      var o := offers[|offers| - 1];
      PicksOf(offers[..|offers| - 1]) + AllGlobal(o.batch, o.soldiers, Rows(o.x, |o.batch|, |o.soldiers|))
  }

  /** The soldiers with the effort that the picks have brought them. */
  function WorkAfter(P: Problem, picks: seq<(nat, nat)>): (r: seq<Soldier>)
    ensures |r| == |P.soldiers|
  {
    seq(|P.soldiers|, si requires 0 <= si < |P.soldiers| =>
      P.soldiers[si].(effortOffset :=
        P.soldiers[si].effortOffset + P.soldiers[si].effortPerMilli * ScoreOf(P, picks, si)))
  }

  /** The point is what the solver's answers come to when the batch is asked on top of the picks. */
  ghost predicate IsAnswer(solver: Solver, P: Problem, c: Ceilings, picks: seq<(nat, nat)>, o: Offer) {
    && Within(P, picks) && IsBatch(P, o.batch, o.soldiers)
    && solver.BatchAnswer(BatchProblem(P, WorkAfter(P, picks), P.existing + Bookings(P, picks), o.batch, o.soldiers),
         c, o.x)
  }

  lemma PicksOfSnoc(offers: seq<Offer>, o: Offer)
    ensures PicksOf(offers + [o])
            == PicksOf(offers) + AllGlobal(o.batch, o.soldiers, Rows(o.x, |o.batch|, |o.soldiers|))
  {
    assert (offers + [o])[..|offers|] == offers;
  }

  lemma TrackedIsWorkAfter(P: Problem, work: seq<Soldier>, picks: seq<(nat, nat)>)
    requires EffortTracked(P, work, picks)
    ensures work == WorkAfter(P, picks)
  {
  }

  class Run {
    const P: Problem
    const c: Ceilings
    var work: seq<Soldier>
    var carry: seq<Existing>
    var assignments: seq<Assignment>
    ghost var picks: seq<(nat, nat)>
    ghost var offers: seq<Offer>

    ghost predicate Valid()
      reads this
    {
      DistinctSoldiers(P) && Safe(P, c, work, carry, assignments, picks) && picks == PicksOf(offers)
    }

    constructor (P: Problem, c: Ceilings)
      requires DistinctSoldiers(P)
      ensures Valid() && this.P == P && this.c == c && offers == []
    {
      this.P, this.c := P, c;
      work, carry, assignments, picks, offers := P.soldiers, P.existing, [], [], [];
      new;
      NothingBooked(P, c);
    }

    /** Appends one assignment's booking to the carry and its score to the soldier's effort. */
    method BookOne(pick: (nat, nat))
      requires Booked(P, work, carry, assignments, picks) && Bookable(P, carry, picks, pick)
      modifies this`work, this`carry, this`assignments, this`picks
      ensures Booked(P, work, carry, assignments, picks)
      ensures picks == old(picks) + [pick]
      ensures carry == old(carry) + [BookingOf(P.soldiers[pick.1].id, P.duties[pick.0])]
    {
      var d := P.duties[pick.0];
      var booked := carry + [BookingOf(P.soldiers[pick.1].id, d)];
      var tired := work[pick.1 := AfterServing(work[pick.1], d)];
      var listed := assignments + [Assignment(d.id, P.soldiers[pick.1].id)];
      BookedSnoc(P, work, carry, assignments, picks, pick, picks + [pick], tired, booked, listed);
      carry, work, assignments, picks := booked, tired, listed, picks + [pick];
    }

    /** Books the first of the batch's assignments. */
    method BookFirst(todo: seq<(nat, nat)>)
      requires DistinctSoldiers(P) && Booked(P, work, carry, assignments, picks)
      requires Pending(P, carry, picks, todo) && todo != []
      modifies this`work, this`carry, this`assignments, this`picks
      ensures Booked(P, work, carry, assignments, picks)
      ensures picks == old(picks) + [todo[0]] && Pending(P, carry, picks, todo[1..])
    {
      PendingRest(P, carry, picks, todo);
      assert Bookable(P, carry, picks, todo[0]);
      BookOne(todo[0]);
    }

    /** Books the batch's assignments one after the other. */
    method Absorb(todo: seq<(nat, nat)>)
      requires DistinctSoldiers(P) && Booked(P, work, carry, assignments, picks)
      requires Pending(P, carry, picks, todo)
      modifies this`work, this`carry, this`assignments, this`picks
      ensures Booked(P, work, carry, assignments, picks)
      ensures picks == old(picks) + todo
    {
      var rest := todo;
      ghost var done: seq<(nat, nat)> := [];
      while rest != []
        invariant todo == done + rest && picks == old(picks) + done
        invariant Booked(P, work, carry, assignments, picks)
        invariant Pending(P, carry, picks, rest)
        decreases |rest|
      {
        MoveHead(old(picks), done, rest);
        BookFirst(rest);
        done, rest := done + [rest[0]], rest[1..];
      }
    }

    /** Books what an answer assigns, and records the batch. */
    method Adopt(ghost offer: Offer, todo: seq<(nat, nat)>)
      requires DistinctSoldiers(P) && Booked(P, work, carry, assignments, picks) && picks == PicksOf(offers)
      requires Pending(P, carry, picks, todo) && Within(P, todo)
      requires DensityBounded(P, c, carry + Bookings(P, todo))
      requires todo == AllGlobal(offer.batch, offer.soldiers, Rows(offer.x, |offer.batch|, |offer.soldiers|))
      modifies this
      ensures Valid() && picks == old(picks) + todo && offers == old(offers) + [offer]
    {
      ghost var picks0 := picks;
      Absorb(todo);
      CarryGrows(P, picks0, todo);
      PicksOfSnoc(offers, offer);
      offers := offers + [offer];
    }

    /** Solves one batch against everything booked so far, and books what it assigns. */
    method RunBatch(solver: Solver, batch: seq<nat>, soldiers: seq<nat>, ghost comp: nat, ghost again: bool,
                    ghost looked: nat)
      returns (cancelled: bool, taken: set<nat>)
      requires Valid() && solver.Sound() && IsBatch(P, batch, soldiers)
      requires forall a: nat | a < |batch| :: !Picked(picks, batch[a])
      modifies this, solver
      ensures Valid() && old(picks) <= picks && old(solver.clock) <= solver.clock
      ensures cancelled ==> picks == old(picks) && offers == old(offers)
      ensures cancelled ==> solver.CancelSeen(old(solver.clock), solver.clock)
      ensures !cancelled ==>
        exists x: Point ::
          && offers == old(offers) + [Offer(comp, again, looked, batch, soldiers, x)]
          && IsAnswer(solver, P, c, old(picks), Offer(comp, again, looked, batch, soldiers, x))
      ensures forall i: nat | |old(picks)| <= i < |picks| :: picks[i].0 in batch
      ensures !cancelled ==> forall di: nat | di in batch :: di in taken <==> Picked(picks, di)
    {
      taken := {};
      var o, labels; ghost var g; ghost var cov;
      o, labels, g, cov := solver.SolveBatch(BatchProblem(P, work, carry, batch, soldiers), c);
      if o.BatchCancelled? {
        return true, taken;
      }
      cancelled := false;
      var todo := AllGlobal(batch, soldiers, Rows(o.x, |batch|, |soldiers|));
      taken := set p | p in todo :: p.0;
      BatchBookable(P, c, work, carry, picks, batch, soldiers, g, o.x, cov, todo);
      BatchTaken(P, work, carry, picks, batch, soldiers, g, o.x, cov, todo);
      TrackedIsWorkAfter(P, work, picks);
      ghost var offer := Offer(comp, again, looked, batch, soldiers, o.x);
      assert IsAnswer(solver, P, c, picks, offer);
      Adopt(offer, todo);
    }
  }

  /** What the answer assigns can be booked, and keeps the windows when all of it is. */
  lemma BatchBookable(P: Problem, c: Ceilings, work: seq<Soldier>, carry: seq<Existing>, picks: seq<(nat, nat)>,
                      batch: seq<nat>, soldiers: seq<nat>, g: Rung, x: Point, cov: Coverage, todo: seq<(nat, nat)>)
    requires DistinctSoldiers(P) && EffortTracked(P, work, picks) && IsBatch(P, batch, soldiers) && P.existing <= carry
    requires DensityBounded(P, c, carry) && forall a: nat | a < |batch| :: !Picked(picks, batch[a])
    requires HardSat(AtRung(BatchProblem(P, work, carry, batch, soldiers), g), x, cov)
    requires g.R <= Max(P.caps.R, c.R) && g.T <= Max(P.caps.T, c.T)
    requires todo == AllGlobal(batch, soldiers, Rows(x, |batch|, |soldiers|))
    ensures Pending(P, carry, picks, todo) && Within(P, todo)
    ensures DensityBounded(P, c, carry + Bookings(P, todo))
  {
    BatchPending(P, work, carry, picks, batch, soldiers, g, x, cov);
    forall i | 0 <= i < |todo| ensures todo[i].0 < |P.duties| && todo[i].1 < |P.soldiers| {
      assert Bookable(P, carry, picks, todo[i]);
    }
    forall id: Id, ws: int ensures WindowBounded(P, c, carry + Bookings(P, todo), id, ws) {
      assert WindowBounded(P, c, carry, id, ws);
      DensityAfterBatch(P, c, work, carry, picks, batch, soldiers, g, x, cov, id, ws);
    }
  }

  /** It assigns duties of the batch, and those picked afterwards are exactly these. */
  lemma BatchTaken(P: Problem, work: seq<Soldier>, carry: seq<Existing>, picks: seq<(nat, nat)>,
                   batch: seq<nat>, soldiers: seq<nat>, g: Rung, x: Point, cov: Coverage, todo: seq<(nat, nat)>)
    requires |work| == |P.soldiers| && IsBatch(P, batch, soldiers)
    requires forall a: nat | a < |batch| :: !Picked(picks, batch[a])
    requires HardSat(AtRung(BatchProblem(P, work, carry, batch, soldiers), g), x, cov)
    requires todo == AllGlobal(batch, soldiers, Rows(x, |batch|, |soldiers|))
    ensures forall i: nat | i < |todo| :: todo[i].0 in batch
    ensures forall di: nat | di in batch :: di in (set p | p in todo :: p.0) <==> Picked(picks + todo, di)
  {
    TakenInBatch(P, x, batch, soldiers, g, cov, todo, BatchProblem(P, work, carry, batch, soldiers));
    forall di: nat | di in batch ensures di in (set p | p in todo :: p.0) <==> Picked(picks + todo, di) {
      PickedByBatch(picks, todo, batch, di);
    }
  }

  lemma NothingBooked(P: Problem, c: Ceilings)
    ensures Safe(P, c, P.soldiers, P.existing, [], [])
  {
    assert P.existing + Bookings(P, []) == P.existing;
    forall si: nat | si < |P.soldiers|
      ensures P.soldiers[si] == P.soldiers[si].(effortOffset :=
                P.soldiers[si].effortOffset + P.soldiers[si].effortPerMilli * ScoreOf(P, [], si))
    {
      assert P.soldiers[si].effortPerMilli * 0 == 0;
    }
  }

  lemma CarryGrows(P: Problem, picks: seq<(nat, nat)>, todo: seq<(nat, nat)>)
    requires Within(P, picks) && Within(P, todo) && Within(P, picks + todo)
    ensures P.existing + Bookings(P, picks + todo) == P.existing + Bookings(P, picks) + Bookings(P, todo)
  {
  }

  lemma TakenInBatch(P: Problem, x: Point, batch: seq<nat>, soldiers: seq<nat>, g: Rung, cov: Coverage,
                     todo: seq<(nat, nat)>, Q: Problem)
    requires HardSat(AtRung(Q, g), x, cov) && |Q.duties| == |batch| && |Q.soldiers| == |soldiers|
    requires todo == AllGlobal(batch, soldiers, Rows(x, |batch|, |soldiers|))
    ensures forall i: nat | i < |todo| :: todo[i].0 in batch
  {
    PointIsOnePerRow(AtRung(Q, g), x, cov);
    RowsMembers(x, |batch|, |soldiers|);
  }

  lemma PickedByBatch(before: seq<(nat, nat)>, todo: seq<(nat, nat)>, batch: seq<nat>, di: nat)
    requires di in batch && forall a: nat | a < |batch| :: !Picked(before, batch[a])
    ensures Picked(before + todo, di) <==> di in (set p | p in todo :: p.0)
  {
    var a: nat :| a < |batch| && batch[a] == di;
    if Picked(before + todo, di) {
      var i: nat :| i < |before + todo| && (before + todo)[i].0 == di;
      assert i < |before| ==> Picked(before, batch[a]);
      assert todo[i - |before|] in todo;
    }
    if di in (set p | p in todo :: p.0) {
      var j: nat :| j < |todo| && todo[j].0 == di;
      assert (before + todo)[|before| + j] == todo[j];
    }
  }
}
