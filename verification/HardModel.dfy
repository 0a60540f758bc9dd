/**
 The hard constraints of one solve, stated without reference to how they are emitted:
 which sets of (duty, soldier) choices a solver may return. Rest against published bookings is
 what the code asks for, which is more than it promises; PromisedRest compares the two.
 */
module HardModel {
  import opened Domain
  import opened Sums
  import opened Sorting

  datatype Coverage = Hard | Soft

  datatype Problem = Problem(
    soldiers: seq<Soldier>,
    duties: seq<Duty>,
    existing: seq<Existing>,
    caps: Caps,
    elig: (Id, Id) -> bool)   // (soldier, duty)

  /** The pairs (duty position, soldier position) whose decision variable is 1. */
  type Point = set<(nat, nat)>

  predicate Eligible(P: Problem, di: nat, si: nat) {
    di < |P.duties| && si < |P.soldiers| && P.elig(P.soldiers[si].id, P.duties[di].id)
  }

  predicate HasEligible(P: Problem, di: nat) {
    exists si: nat | si < |P.soldiers| :: Eligible(P, di, si)
  }

  /** Only eligible pairs have a decision variable. */
  ghost predicate OverVariables(P: Problem, x: Point) {
    forall di: nat, si: nat :: (di, si) in x ==> Eligible(P, di, si)
  }

  // ----- coverage and quotas -----

  ghost predicate Covered(x: Point, di: nat) {
    exists si: nat :: (di, si) in x
  }

  ghost predicate CoverageOk(P: Problem, x: Point, cov: Coverage, di: nat) {
    && (forall si: nat, sj: nat :: (di, si) in x && (di, sj) in x ==> si == sj)
    && (cov.Hard? && HasEligible(P, di) ==> Covered(x, di))
  }

  predicate Matches(P: Problem, di: nat, node: Id, si: nat) {
    Eligible(P, di, si) && node in P.soldiers[si].path
  }

  predicate HasMatch(P: Problem, di: nat, node: Id) {
    exists si: nat | si < |P.soldiers| :: Matches(P, di, node, si)
  }

  /** How many chosen soldiers of a duty belong to the node's subtree. */
  function QuotaCount(P: Problem, x: Point, di: nat, node: Id): int {
    Sum(|P.soldiers|, Bits((si: nat) => (di, si) in x && Matches(P, di, node, si)))
  }

  /** A quota with a matching soldier is met exactly, unless soft coverage left the duty open. */
  ghost predicate QuotaOk(P: Problem, x: Point, cov: Coverage, di: nat)
    requires di < |P.duties|
  {
    forall q | q in P.duties[di].nodeQuotas && HasMatch(P, di, q.0) ::
      cov.Hard? || Covered(x, di) ==> QuotaCount(P, x, di, q.0) == q.1
  }

  // ----- one duty a day, and rest -----

  /** The days on which the listed bookings occupy a soldier. */
  function BookedDays(es: seq<Existing>, soldier: Id, realOnly: bool): set<int> {
    if es == [] then {}
    else
      var e := es[|es| - 1];
      BookedDays(es[..|es| - 1], soldier, realOnly)
      + (if e.soldier == soldier && !(realOnly && e.isReserve) then Days(e.start, e.end) else {})
  }

  ghost predicate NoOverlapOk(P: Problem, x: Point, si: nat)
    requires si < |P.soldiers|
  {
    && (forall di: nat | di < |P.duties| && (di, si) in x ::
          DutyDays(P.duties[di]) !! BookedDays(P.existing, P.soldiers[si].id, false))
    && (forall di: nat, dj: nat | di < dj < |P.duties| && (di, si) in x && (dj, si) in x ::
          DutyDays(P.duties[di]) !! DutyDays(P.duties[dj]))
  }

  /** Start order, ties broken by position. */
  predicate Precedes(P: Problem, di: nat, dj: nat)
    requires di < |P.duties| && dj < |P.duties|
  {
    P.duties[di].start < P.duties[dj].start || (P.duties[di].start == P.duties[dj].start && di < dj)
  }

  /** A duty that starts too soon after a duty that starts before it. */
  predicate RestClash(P: Problem, di: nat, dj: nat)
    requires di < |P.duties| && dj < |P.duties|
  {
    && Precedes(P, di, dj)
    && RestViolated(DutyEnd(P.duties[di]), P.duties[dj].start, P.duties[dj].startTime, P.duties[di].restHours)
  }

  /** A duty that starts before the rest after a published booking is over, wherever the booking lies. */
  predicate ClashesWithBooking(e: Existing, soldier: Id, d: Duty) {
    && e.soldier == soldier
    && e.restEnd.RestEnd?
    && RestViolated(Instant(e.restEnd.day, e.restEnd.time), d.start, d.startTime, e.restHours)
  }

  /** No chosen duty clashes with a published booking. */
  ghost predicate BookedRestOk(P: Problem, x: Point, si: nat)
    requires si < |P.soldiers|
  {
    forall e, di: nat | e in P.existing && di < |P.duties| && (di, si) in x ::
      !ClashesWithBooking(e, P.soldiers[si].id, P.duties[di])
  }

  /** No two chosen duties clash. */
  ghost predicate PairedRestOk(P: Problem, x: Point, si: nat) {
    forall di: nat, dj: nat | di < |P.duties| && dj < |P.duties| && (di, si) in x && (dj, si) in x ::
      !RestClash(P, di, dj)
  }

  ghost predicate RestOk(P: Problem, x: Point, si: nat)
    requires si < |P.soldiers|
  {
    BookedRestOk(P, x, si) && PairedRestOk(P, x, si)
  }

  // ----- rolling density windows -----

  /** The days of a duty inside [ws, ws + width). */
  function Overlap(d: Duty, ws: int, width: nat): nat {
    var lo := if d.start > ws then d.start else ws;
    var hi := if d.end < ws + width then d.end else ws + width;
    if lo < hi then hi - lo else 0
  }

  /** What choosing duty di for soldier si adds to the window. */
  function Contribution(P: Problem, x: Point, si: nat, ws: int, width: nat, realOnly: bool): nat -> int {
    (di: nat) =>
      if Eligible(P, di, si) && (di, si) in x && !(realOnly && P.duties[di].isReserve)
      then Overlap(P.duties[di], ws, width) else 0
  }

  function NewDays(P: Problem, x: Point, si: nat, ws: int, width: nat, realOnly: bool): int {
    Sum(|P.duties|, Contribution(P, x, si, ws, width, realOnly))
  }

  /** Days already booked inside [ws, ws + width). */
  function OldDays(P: Problem, si: nat, ws: int, width: nat, realOnly: bool): nat
    requires si < |P.soldiers|
  {
    |Between(BookedDays(P.existing, P.soldiers[si].id, realOnly), ws, ws + width - 1)|
  }

  /** A window takes nothing new, or stays within the cap. */
  predicate Fits(added: int, booked: int, cap: int) {
    added == 0 || added + booked <= cap
  }

  ghost predicate WindowFits(P: Problem, x: Point, si: nat, ws: int, width: nat, realOnly: bool, cap: int)
    requires si < |P.soldiers|
  {
    Fits(NewDays(P, x, si, ws, width, realOnly), OldDays(P, si, ws, width, realOnly), cap)
  }

  ghost predicate DensityOk(P: Problem, x: Point, si: nat)
    requires si < |P.soldiers|
  {
    && (forall ws: int :: WindowFits(P, x, si, ws, P.caps.Wt, true, P.caps.T))
    && (forall ws: int :: WindowFits(P, x, si, ws, P.caps.Wr, false, P.caps.R))
  }

  // ----- the whole model -----

  ghost predicate DutyOk(P: Problem, x: Point, cov: Coverage, di: nat)
    requires di < |P.duties|
  {
    CoverageOk(P, x, cov, di) && QuotaOk(P, x, cov, di)
  }

  ghost predicate SoldierOk(P: Problem, x: Point, si: nat)
    requires si < |P.soldiers|
  {
    NoOverlapOk(P, x, si) && RestOk(P, x, si) && DensityOk(P, x, si)
  }

  ghost predicate HardSat(P: Problem, x: Point, cov: Coverage) {
    && OverVariables(P, x)
    && (forall di: nat | di < |P.duties| :: DutyOk(P, x, cov, di))
    && (forall si: nat | si < |P.soldiers| :: SoldierOk(P, x, si))
  }

  // ----- facts used by several modules -----

  lemma NewDaysNonNegative(P: Problem, x: Point, si: nat, ws: int, width: nat, realOnly: bool)
    ensures NewDays(P, x, si, ws, width, realOnly) >= 0
  {
    SumZero(|P.duties|, (_: nat) => 0);
    SumMonotone(|P.duties|, (_: nat) => 0, Contribution(P, x, si, ws, width, realOnly));
  }

  lemma {:induction false} BookedDaysReal(es: seq<Existing>, soldier: Id)
    ensures BookedDays(es, soldier, true) <= BookedDays(es, soldier, false)
  {
    if es != [] {
      BookedDaysReal(es[..|es| - 1], soldier);
    }
  }

  lemma BookedDaysAppend(es: seq<Existing>, e: Existing, soldier: Id, realOnly: bool)
    ensures BookedDays(es + [e], soldier, realOnly)
            == BookedDays(es, soldier, realOnly)
               + (if e.soldier == soldier && !(realOnly && e.isReserve) then Days(e.start, e.end) else {})
  {
    assert (es + [e])[..|es|] == es;
  }
}
