/**
 Which duties a run puts to the solver, how often, and what its roster owes to the answers: no
 duty that somebody may take is left open without two answers that left it out.
 */
module Offers {
  import opened Domain
  import opened Sums
  import opened Sorting
  import opened HardModel
  import opened Relaxation
  import opened Engine
  import opened Carry
  import opened InterleavedRun
  import Decomposition

  /** The k-th batch has the duty in it, and everyone who may take it. */
  ghost predicate OfferedAt(P: Problem, offers: seq<Offer>, k: nat, di: nat) {
    && k < |offers| && di in offers[k].batch
    && forall si: nat | Eligible(P, di, si) :: si in offers[k].soldiers
  }

  ghost predicate Offered(P: Problem, offers: seq<Offer>, di: nat) {
    exists k: nat :: OfferedAt(P, offers, k, di) && !offers[k].again
  }

  /** In one of the planned batches, and later among the leftovers. */
  ghost predicate OfferedTwice(P: Problem, offers: seq<Offer>, di: nat) {
    exists j: nat, k: nat :: j < k && OfferedAt(P, offers, j, di) && OfferedAt(P, offers, k, di)
      && !offers[j].again && offers[k].again
  }

  /**
   One component after the other, each with its own soldiers, and a component's leftovers come
   after all its planned batches, once.
   */
  ghost predicate Staged(offers: seq<Offer>) {
    forall i, j | 0 <= i < j < |offers| ::
      && offers[i].comp <= offers[j].comp
      && (offers[i].comp == offers[j].comp ==> !offers[i].again && offers[i].soldiers == offers[j].soldiers)
  }

  lemma OneMoreStage(offers: seq<Offer>, o: Offer)
    requires Staged(offers)
    requires forall i | 0 <= i < |offers| ::
      && offers[i].comp <= o.comp
      && (offers[i].comp == o.comp ==> !offers[i].again && offers[i].soldiers == o.soldiers)
    ensures Staged(offers + [o])
  {
  }

  /** Before each batch the cancel event was looked at anew, and it was not set. */
  ghost predicate LookedEachTime(solver: Solver, from: nat, now: nat, offers: seq<Offer>) {
    && (forall i | 0 <= i < |offers| :: from <= offers[i].looked < now && !solver.cancelSet(offers[i].looked))
    && (forall i, j | 0 <= i < j < |offers| :: offers[i].looked < offers[j].looked)
  }

  lemma OneMoreLook(solver: Solver, from: nat, now: nat, later: nat, offers: seq<Offer>, o: Offer)
    requires LookedEachTime(solver, from, now, offers)
    requires from <= now <= o.looked < later && !solver.cancelSet(o.looked)
    ensures LookedEachTime(solver, from, later, offers + [o])
  {
  }

  /** The point of each batch is what the answers come to, asked on top of the picks of the earlier ones. */
  ghost predicate AllAnswered(solver: Solver, P: Problem, c: Ceilings, offers: seq<Offer>) {
    forall k: nat | k < |offers| :: IsAnswer(solver, P, c, PicksOf(offers[..k]), offers[k])
  }

  lemma OneMoreAnswered(solver: Solver, P: Problem, c: Ceilings, offers: seq<Offer>, o: Offer)
    requires AllAnswered(solver, P, c, offers) && IsAnswer(solver, P, c, PicksOf(offers), o)
    ensures AllAnswered(solver, P, c, offers + [o])
  {
    var all := offers + [o];
    forall k: nat | k < |all| ensures IsAnswer(solver, P, c, PicksOf(all[..k]), all[k]) {
      if k < |offers| {
        assert all[..k] == offers[..k] && all[k] == offers[k];
      } else {
        assert all[..k] == offers && all[k] == o;
      }
    }
  }

  lemma StillOffered(P: Problem, offers: seq<Offer>, o: Offer, di: nat)
    ensures Offered(P, offers, di) ==> Offered(P, offers + [o], di)
    ensures OfferedTwice(P, offers, di) ==> OfferedTwice(P, offers + [o], di)
    ensures OfferedAt(P, [o], 0, di) && !o.again ==> Offered(P, offers + [o], di)
    ensures OfferedAt(P, [o], 0, di) && o.again && Offered(P, offers, di) ==> OfferedTwice(P, offers + [o], di)
  {
    var all := offers + [o];
    forall k: nat | OfferedAt(P, offers, k, di) ensures OfferedAt(P, all, k, di) && all[k] == offers[k] {
    }
    assert all[|offers|] == o;
    if OfferedAt(P, [o], 0, di) {
      assert OfferedAt(P, all, |offers|, di);
    }
    if j: nat, k: nat :| j < k && OfferedAt(P, offers, j, di) && OfferedAt(P, offers, k, di)
                         && !offers[j].again && offers[k].again {
      assert OfferedAt(P, all, j, di) && OfferedAt(P, all, k, di);
    }
    if OfferedAt(P, [o], 0, di) && Offered(P, offers, di) {
      var k: nat :| OfferedAt(P, offers, k, di) && !offers[k].again;
      assert OfferedAt(P, all, k, di) && k < |offers|;
    }
  }

  // ----- from the answers to the roster -----

  /** The answer to a batch gives the duty to this soldier. */
  ghost predicate Gives(o: Offer, di: nat, si: nat) {
    exists a: nat, b: nat ::
      a < |o.batch| && b < |o.soldiers| && (a, b) in o.x && o.batch[a] == di && o.soldiers[b] == si
  }

  lemma GivenIsListed(o: Offer, rows: seq<(nat, nat)>, todo: seq<(nat, nat)>, a: nat, b: nat)
    requires ListsRows(o.x, |o.batch|, |o.soldiers|, rows) && todo == AllGlobal(o.batch, o.soldiers, rows)
    requires a < |o.batch| && b < |o.soldiers| && (a, b) in o.x
    ensures (o.batch[a], o.soldiers[b]) in todo
  {
    assert (a, b) in rows;
    var i: nat :| i < |rows| && rows[i] == (a, b);
    assert todo[i] == (o.batch[a], o.soldiers[b]);
  }

  lemma ListedIsGiven(o: Offer, rows: seq<(nat, nat)>, todo: seq<(nat, nat)>, di: nat, si: nat)
    requires ListsRows(o.x, |o.batch|, |o.soldiers|, rows) && todo == AllGlobal(o.batch, o.soldiers, rows)
    requires (di, si) in todo
    ensures Gives(o, di, si)
  {
    var i: nat :| i < |todo| && todo[i] == (di, si);
    assert (rows[i].0, rows[i].1) in o.x;
  }

  lemma OfferGives(o: Offer, di: nat, si: nat)
    requires OnePerRow(o.x)
    ensures (di, si) in AllGlobal(o.batch, o.soldiers, Rows(o.x, |o.batch|, |o.soldiers|)) <==> Gives(o, di, si)
  {
    var rows := Rows(o.x, |o.batch|, |o.soldiers|);
    var todo := AllGlobal(o.batch, o.soldiers, rows);
    RowsMembers(o.x, |o.batch|, |o.soldiers|);
    if (di, si) in todo {
      ListedIsGiven(o, rows, todo, di, si);
    }
    if Gives(o, di, si) {
      var a: nat, b: nat :|
        a < |o.batch| && b < |o.soldiers| && (a, b) in o.x && o.batch[a] == di && o.soldiers[b] == si;
      GivenIsListed(o, rows, todo, a, b);
    }
  }

  ghost predicate SomeGives(offers: seq<Offer>, di: nat, si: nat) {
    exists k: nat :: k < |offers| && Gives(offers[k], di, si)
  }

  lemma SomeGivesMore(front: seq<Offer>, last: Offer, di: nat, si: nat)
    ensures SomeGives(front + [last], di, si) <==> SomeGives(front, di, si) || Gives(last, di, si)
  {
    var all := front + [last];
    assert all[|front|] == last;
    if k: nat :| k < |front| && Gives(front[k], di, si) {
      assert all[k] == front[k];
    }
    if k: nat :| k < |all| && Gives(all[k], di, si) {
      assert k < |front| ==> Gives(front[k], di, si);
    }
  }

  /** The roster is made of the answers: a pick is in it exactly when the answer to some batch has it. */
  lemma {:induction false} PicksAreAnswers(offers: seq<Offer>, di: nat, si: nat)
    requires forall k: nat | k < |offers| :: OnePerRow(offers[k].x)
    ensures (di, si) in PicksOf(offers) <==> SomeGives(offers, di, si)
  {
    if offers != [] {
      var front, last := offers[..|offers| - 1], offers[|offers| - 1];
      assert offers == front + [last];
      forall k: nat | k < |front| ensures OnePerRow(front[k].x) {
        assert front[k] == offers[k];
      }
      PicksAreAnswers(front, di, si);
      OfferGives(last, di, si);
      SomeGivesMore(front, last, di, si);
    }
  }

  lemma AnswerIsOnePerRow(solver: Solver, P: Problem, c: Ceilings, x: Point)
    requires solver.Sound() && solver.BatchAnswer(P, c, x)
    ensures OnePerRow(x)
  {
    var asked: seq<nat> :| solver.HardAnswer(P, c, asked, x)
                           || (solver.HardExhausted(P, c, asked) && exists t: nat :: solver.SoftAnswer(P, t, x));
    if solver.HardAnswer(P, c, asked, x) {
      PointIsOnePerRow(AtRung(P, RungAfter(BaseRung(P), c, |asked| - 1)), x, Hard);
    } else {
      var t: nat :| solver.SoftAnswer(P, t, x);
      if x != {} {
        PointIsOnePerRow(P, x, Soft);
      }
    }
  }

  /** So the roster of a sound solver is what its answers give, no more and no less. */
  lemma RosterIsAnswers(solver: Solver, P: Problem, c: Ceilings, offers: seq<Offer>, di: nat, si: nat)
    requires solver.Sound() && AllAnswered(solver, P, c, offers)
    ensures (di, si) in PicksOf(offers) <==> SomeGives(offers, di, si)
  {
    forall k: nat | k < |offers| ensures OnePerRow(offers[k].x) {
      var o, before := offers[k], PicksOf(offers[..k]);
      assert IsAnswer(solver, P, c, before, o);
      AnswerIsOnePerRow(solver,
        BatchProblem(P, WorkAfter(P, before), P.existing + Bookings(P, before), o.batch, o.soldiers), c, o.x);
    }
    PicksAreAnswers(offers, di, si);
  }

  // ----- a solver that always finds a point -----

  /** Whenever and whatever it is asked with hard coverage, it finds a point. */
  ghost predicate Willing(solver: Solver) {
    forall t: nat, P: Problem :: solver.solve(t, P, Hard, 0).Found?
  }

  lemma WillingAnswers(solver: Solver, P: Problem, c: Ceilings, x: Point)
    requires solver.Sound() && Willing(solver) && solver.BatchAnswer(P, c, x)
    ensures exists g: Rung :: HardSat(AtRung(P, g), x, Hard)
  {
    var asked: seq<nat> :| solver.HardAnswer(P, c, asked, x)
                           || (solver.HardExhausted(P, c, asked) && exists t: nat :: solver.SoftAnswer(P, t, x));
    assert solver.Reply(P, c, asked[0], 0).Found?;
    var n := |asked| - 1;
    assert solver.Tried(P, c, asked, n);
    var g := RungAfter(BaseRung(P), c, n);
    assert HardSat(AtRung(P, g), solver.solve(asked[n], AtRung(P, g), Hard, 0).x, Hard);
  }

  /** A batch with hard coverage gives away every duty that one of its soldiers may take. */
  lemma HardGives(P: Problem, work: seq<Soldier>, carry: seq<Existing>, o: Offer, g: Rung, di: nat, si: nat)
    requires |work| == |P.soldiers| && IsBatch(P, o.batch, o.soldiers) && di in o.batch && si in o.soldiers
    requires forall s: nat | s < |work| :: work[s].id == P.soldiers[s].id
    requires HardSat(AtRung(BatchProblem(P, work, carry, o.batch, o.soldiers), g), o.x, Hard) && Eligible(P, di, si)
    ensures exists s: nat :: Gives(o, di, s)
  {
    var Q := AtRung(BatchProblem(P, work, carry, o.batch, o.soldiers), g);
    var a: nat :| a < |o.batch| && o.batch[a] == di;
    var b: nat :| b < |o.soldiers| && o.soldiers[b] == si;
    assert Eligible(Q, a, b);
    assert DutyOk(Q, o.x, Hard, a);
    var d: nat :| (a, d) in o.x;
    assert Eligible(Q, a, d);
    assert Gives(o, di, o.soldiers[d]);
  }

  lemma WillingOfferGives(solver: Solver, P: Problem, c: Ceilings, picks: seq<(nat, nat)>, o: Offer, di: nat)
    requires solver.Sound() && Willing(solver) && IsAnswer(solver, P, c, picks, o)
    requires HasEligible(P, di) && di in o.batch && forall si: nat | Eligible(P, di, si) :: si in o.soldiers
    ensures OnePerRow(o.x) && exists s: nat :: Gives(o, di, s)
  {
    var si: nat :| si < |P.soldiers| && Eligible(P, di, si);
    var work, carry := WorkAfter(P, picks), P.existing + Bookings(P, picks);
    var Q := BatchProblem(P, work, carry, o.batch, o.soldiers);
    WillingAnswers(solver, Q, c, o.x);
    var g: Rung :| HardSat(AtRung(Q, g), o.x, Hard);
    PointIsOnePerRow(AtRung(Q, g), o.x, Hard);
    HardGives(P, work, carry, o, g, di, si);
  }

  lemma InsidePrefix<T>(before: seq<T>, more: seq<T>, all: seq<T>, i: nat)
    requires before + more <= all && i < |more|
    ensures |before| + i < |all| && all[|before| + i] == more[i]
  {
    assert (before + more)[|before| + i] == more[i];
  }

  lemma OfferIsInside(offers: seq<Offer>, k: nat)
    requires k < |offers|
    ensures var o := offers[k];
            PicksOf(offers[..k]) + AllGlobal(o.batch, o.soldiers, Rows(o.x, |o.batch|, |o.soldiers|)) <= PicksOf(offers)
  {
    assert offers[..k + 1] == offers[..k] + [offers[k]];
    PicksOfSnoc(offers[..k], offers[k]);
    PicksGrow(offers, k + 1);
  }

  lemma GivenIsPicked(offers: seq<Offer>, k: nat, di: nat, si: nat)
    requires k < |offers| && OnePerRow(offers[k].x) && Gives(offers[k], di, si)
    ensures Picked(PicksOf(offers), di)
  {
    var o := offers[k];
    var todo := AllGlobal(o.batch, o.soldiers, Rows(o.x, |o.batch|, |o.soldiers|));
    OfferGives(o, di, si);
    var i: nat :| i < |todo| && todo[i] == (di, si);
    OfferIsInside(offers, k);
    InsidePrefix(PicksOf(offers[..k]), todo, PicksOf(offers), i);
  }

  /** So with such a solver every duty that is offered gets assigned. */
  lemma WillingSolverFills(solver: Solver, P: Problem, c: Ceilings, offers: seq<Offer>, di: nat)
    requires solver.Sound() && Willing(solver) && AllAnswered(solver, P, c, offers)
    requires HasEligible(P, di) && Offered(P, offers, di)
    ensures Picked(PicksOf(offers), di)
  {
    var k: nat :| OfferedAt(P, offers, k, di);
    WillingOfferGives(solver, P, c, PicksOf(offers[..k]), offers[k], di);
    var s: nat :| Gives(offers[k], di, s);
    GivenIsPicked(offers, k, di, s);
  }

  lemma {:induction false} PicksGrow(offers: seq<Offer>, k: nat)
    requires k <= |offers|
    ensures PicksOf(offers[..k]) <= PicksOf(offers)
    decreases |offers|
  {
    if k == |offers| {
      assert offers[..k] == offers;
    } else {
      var front := offers[..|offers| - 1];
      assert front[..k] == offers[..k];
      PicksGrow(front, k);
    }
  }
}
