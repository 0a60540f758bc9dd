/** The plan of batches of a run, the loop over it, and the status it reports. */
module BatchedSolve {
  import opened Domain
  import opened Sums
  import opened HardModel
  import opened Relaxation
  import opened Engine
  import opened Carry
  import opened Batches
  import opened InterleavedRun
  import opened Offers
  import opened Roster
  import Components
  import Decomposition

  datatype PlanEntry = PlanEntry(comp: nat, soldiers: seq<nat>, batch: seq<nat>)

  datatype Status = Optimal | Feasible | NothingAssigned | Stopped

  /** Duty di belongs to one of the first n planned batches. */
  ghost predicate InPlan(plan: seq<PlanEntry>, n: nat, di: nat) {
    exists p: nat :: p < n && p < |plan| && di in plan[p].batch
  }

  ghost predicate Disjoint(plan: seq<PlanEntry>) {
    forall p: nat, q: nat, di: nat | p < |plan| && q < |plan| && di in plan[p].batch && di in plan[q].batch :: p == q
  }

  /** A batch holds some duty, and its soldiers include everyone who may take one of its duties. */
  ghost predicate EntryOk(P: Problem, e: PlanEntry) {
    && IsBatch(P, e.batch, e.soldiers) && e.batch != []
    && forall di: nat, si: nat | di in e.batch && Eligible(P, di, si) :: si in e.soldiers
  }

  ghost predicate PlanOk(P: Problem, plan: seq<PlanEntry>) {
    (forall p: nat | p < |plan| :: EntryOk(P, plan[p])) && Disjoint(plan)
  }

  /** Batches of one component have the same soldiers. */
  ghost predicate SharesSoldiers(plan: seq<PlanEntry>) {
    forall p: nat, q: nat | p < |plan| && q < |plan| && plan[p].comp == plan[q].comp ::
      plan[p].soldiers == plan[q].soldiers
  }

  ghost predicate InOrder(plan: seq<PlanEntry>) {
    forall p: nat, q: nat | p < q < |plan| :: plan[p].comp <= plan[q].comp
  }

  /** One of the first n components after the other, each entry with its component's soldiers. */
  ghost predicate FromComponents(comps: seq<Components.Component>, n: nat, plan: seq<PlanEntry>) {
    && InOrder(plan)
    && forall p: nat | p < |plan| ::
         plan[p].comp < n && plan[p].comp < |comps| && plan[p].soldiers == comps[plan[p].comp].soldiers
  }

  // ----- planning -----

  function EntriesOf(comp: nat, soldiers: seq<nat>, batches: seq<seq<nat>>): (r: seq<PlanEntry>)
    ensures |r| == |batches|
    ensures forall k | 0 <= k < |r| :: r[k] == PlanEntry(comp, soldiers, batches[k])
  {
    seq(|batches|, k requires 0 <= k < |batches| => PlanEntry(comp, soldiers, batches[k]))
  }

  /** The plan holds exactly the duties of the first n manned components. */
  ghost predicate Planned(comps: seq<Components.Component>, n: nat, plan: seq<PlanEntry>) {
    forall di: nat :: InPlan(plan, |plan|, di) <==>
      exists i: nat :: i < n && i < |comps| && comps[i].soldiers != [] && di in comps[i].duties
  }

  lemma PlanAppend(P: Problem, plan: seq<PlanEntry>, more: seq<PlanEntry>)
    requires PlanOk(P, plan) && PlanOk(P, more)
    requires forall di: nat :: !(InPlan(plan, |plan|, di) && InPlan(more, |more|, di))
    ensures PlanOk(P, plan + more)
    ensures forall di: nat ::
      InPlan(plan + more, |plan + more|, di) <==> InPlan(plan, |plan|, di) || InPlan(more, |more|, di)
  {
    var all := plan + more;
    forall di: nat ensures InPlan(all, |all|, di) <==> InPlan(plan, |plan|, di) || InPlan(more, |more|, di) {
      if InPlan(all, |all|, di) {
        var p: nat :| p < |all| && di in all[p].batch;
        assert p < |plan| ==> all[p] == plan[p];
        assert p >= |plan| ==> all[p] == more[p - |plan|];
      }
      if InPlan(plan, |plan|, di) {
        var p: nat :| p < |plan| && di in plan[p].batch;
        assert all[p] == plan[p];
      }
      if InPlan(more, |more|, di) {
        var p: nat :| p < |more| && di in more[p].batch;
        assert all[|plan| + p] == more[p];
      }
    }
    forall p: nat, q: nat, di: nat | p < |all| && q < |all| && di in all[p].batch && di in all[q].batch
      ensures p == q
    {
      assert p < |plan| ==> InPlan(plan, |plan|, di);
      assert q < |plan| ==> InPlan(plan, |plan|, di);
      assert p >= |plan| ==> all[p] == more[p - |plan|] && InPlan(more, |more|, di);
      assert q >= |plan| ==> all[q] == more[q - |plan|] && InPlan(more, |more|, di);
    }
  }

  lemma EntriesOk(P: Problem, c: Components.Component, comp: nat, batches: seq<seq<nat>>)
    requires Decomposition.Closed(P, c) && Partitions(batches, c.duties)
    requires forall j: nat | j < |batches| :: batches[j] != []
    ensures PlanOk(P, EntriesOf(comp, c.soldiers, batches))
    ensures forall di: nat ::
      InPlan(EntriesOf(comp, c.soldiers, batches), |batches|, di) <==> di in c.duties
  {
    var es := EntriesOf(comp, c.soldiers, batches);
    forall p: nat | p < |es| ensures EntryOk(P, es[p]) {
      assert es[p] == PlanEntry(comp, c.soldiers, batches[p]);
      forall i | 0 <= i < |batches[p]| ensures batches[p][i] < |P.duties| {
        assert batches[p][i] in batches[p];
        assert batches[p][i] in c.duties;
      }
    }
    forall di: nat ensures InPlan(es, |batches|, di) <==> di in c.duties {
      if di in c.duties {
        var j: nat :| j < |batches| && di in batches[j];
        assert di in es[j].batch;
      }
    }
  }

  lemma ComponentsAppend(comps: seq<Components.Component>, i: nat, plan: seq<PlanEntry>, more: seq<PlanEntry>)
    requires i < |comps| && FromComponents(comps, i, plan)
    requires forall k | 0 <= k < |more| :: more[k].comp == i && more[k].soldiers == comps[i].soldiers
    ensures FromComponents(comps, i + 1, plan + more)
  {
  }

  lemma PlanMore(P: Problem, comps: seq<Components.Component>, i: nat, plan: seq<PlanEntry>, batches: seq<seq<nat>>,
                 more: seq<PlanEntry>)
    requires Decomposition.Splits(P, comps) && i < |comps| && comps[i].soldiers != []
    requires Decomposition.Closed(P, comps[i]) && Partitions(batches, comps[i].duties)
    requires forall j: nat | j < |batches| :: batches[j] != []
    requires more == EntriesOf(i, comps[i].soldiers, batches)
    requires PlanOk(P, plan) && Planned(comps, i, plan) && FromComponents(comps, i, plan)
    ensures PlanOk(P, plan + more) && Planned(comps, i + 1, plan + more) && FromComponents(comps, i + 1, plan + more)
  {
    EntriesOk(P, comps[i], i, batches);
    NewComponentDisjoint(P, comps, i, plan, more);
    PlanAppend(P, plan, more);
    PlannedStep(comps, i, plan, more);
    ComponentsAppend(comps, i, plan, more);
  }

  /** Every duty that somebody may take is in one batch of the plan, with everyone who may take it. */
  method MakePlan(P: Problem, batchSize: nat) returns (plan: seq<PlanEntry>)
    requires batchSize > 0
    ensures PlanOk(P, plan) && SharesSoldiers(plan) && InOrder(plan)
    ensures forall p: nat | p < |plan| :: 0 < |plan[p].batch| <= batchSize
    ensures forall di: nat | di < |P.duties| :: HasEligible(P, di) <==> InPlan(plan, |plan|, di)
  {
    var comps := Decomposition.Decompose(P);
    plan := [];
    var i: nat := 0;
    while i < |comps|
      invariant i <= |comps| && PlanOk(P, plan) && FromComponents(comps, i, plan)
      invariant forall p: nat | p < |plan| :: 0 < |plan[p].batch| <= batchSize
      invariant Planned(comps, i, plan)
    {
      if comps[i].soldiers != [] {
        assert Decomposition.Closed(P, comps[i]);
        var batches := InterleavedDutyBatches(comps[i].duties, P.duties, batchSize);
        var more := EntriesOf(i, comps[i].soldiers, batches);
        PlanMore(P, comps, i, plan, batches, more);
        plan := plan + more;
      }
      i := i + 1;
    }
    forall di: nat | di < |P.duties| ensures HasEligible(P, di) <==> InPlan(plan, |plan|, di) {
      PlannedAreManned(P, comps, plan, di);
    }
  }

  lemma NewComponentDisjoint(P: Problem, comps: seq<Components.Component>, i: nat, plan: seq<PlanEntry>,
                             more: seq<PlanEntry>)
    requires Decomposition.Splits(P, comps) && i < |comps| && Planned(comps, i, plan)
    requires forall di: nat :: InPlan(more, |more|, di) <==> di in comps[i].duties
    ensures forall di: nat :: !(InPlan(plan, |plan|, di) && InPlan(more, |more|, di))
  {
    forall di: nat ensures !(InPlan(plan, |plan|, di) && InPlan(more, |more|, di)) {
      if InPlan(plan, |plan|, di) {
        var j: nat :| j < i && j < |comps| && comps[j].soldiers != [] && di in comps[j].duties;
        assert di in comps[i].duties ==> i == j;
      }
    }
  }

  lemma PlannedStep(comps: seq<Components.Component>, i: nat, plan: seq<PlanEntry>, more: seq<PlanEntry>)
    requires i < |comps| && comps[i].soldiers != [] && Planned(comps, i, plan)
    requires forall di: nat :: InPlan(more, |more|, di) <==> di in comps[i].duties
    requires forall di: nat ::
      InPlan(plan + more, |plan + more|, di) <==> InPlan(plan, |plan|, di) || InPlan(more, |more|, di)
    ensures Planned(comps, i + 1, plan + more)
  {
    forall di: nat ensures InPlan(plan + more, |plan + more|, di) <==>
      exists j: nat :: j < i + 1 && j < |comps| && comps[j].soldiers != [] && di in comps[j].duties
    {
      if j: nat :| j < i + 1 && j < |comps| && comps[j].soldiers != [] && di in comps[j].duties {
        assert j < i || j == i;
      }
    }
  }

  lemma PlannedAreManned(P: Problem, comps: seq<Components.Component>, plan: seq<PlanEntry>, di: nat)
    requires Decomposition.Splits(P, comps) && Planned(comps, |comps|, plan) && di < |P.duties|
    ensures HasEligible(P, di) <==> InPlan(plan, |plan|, di)
  {
    if HasEligible(P, di) {
      var si: nat :| si < |P.soldiers| && Eligible(P, di, si);
      assert Components.InSome(comps, di);
      var i: nat :| i < |comps| && di in comps[i].duties;
      assert Decomposition.Closed(P, comps[i]);
      assert si in comps[i].soldiers;
    }
  }

  // ----- leftovers -----

  predicate SomeoneEligible(P: Problem, soldiers: seq<nat>, di: nat) {
    exists k | 0 <= k < |soldiers| :: Eligible(P, di, soldiers[k])
  }

  /** The duties of a batch that stayed open although somebody in the pool may take them. */
  function Leftover(P: Problem, batch: seq<nat>, soldiers: seq<nat>, taken: set<nat>): (r: seq<nat>)
    ensures forall x: nat | x in r :: x in batch && x !in taken
  {
    if batch == [] then []
    else
      (if batch[0] !in taken && SomeoneEligible(P, soldiers, batch[0]) then [batch[0]] else [])
      + Leftover(P, batch[1..], soldiers, taken)
  }

  lemma {:induction false} LeftoverNoRepeats(P: Problem, batch: seq<nat>, soldiers: seq<nat>, taken: set<nat>)
    requires NoRepeats(batch)
    ensures NoRepeats(Leftover(P, batch, soldiers, taken))
  {
    if batch != [] {
      LeftoverNoRepeats(P, batch[1..], soldiers, taken);
      assert batch[0] !in batch[1..];
    }
  }

  /** A component's leftovers come from its own processed batches and are still open. */
  ghost predicate ResidualOk(plan: seq<PlanEntry>, n: nat, picks: seq<(nat, nat)>, comp: nat, rest: seq<nat>) {
    && NoRepeats(rest)
    && forall x: nat | x in rest :: !Picked(picks, x) && FromComponent(plan, n, comp, x)
  }

  ghost predicate FromComponent(plan: seq<PlanEntry>, n: nat, comp: nat, di: nat) {
    exists p: nat :: p < n && p < |plan| && plan[p].comp == comp && di in plan[p].batch
  }

  ghost predicate ResidualsOk(plan: seq<PlanEntry>, n: nat, picks: seq<(nat, nat)>, residual: map<nat, seq<nat>>) {
    forall comp: nat | comp in residual :: ResidualOk(plan, n, picks, comp, residual[comp])
  }

  /** Picks of this run come from processed batches. */
  ghost predicate PicksPlanned(plan: seq<PlanEntry>, n: nat, picks: seq<(nat, nat)>) {
    forall i: nat | i < |picks| :: InPlan(plan, n, picks[i].0)
  }

  lemma UnprocessedUnpicked(plan: seq<PlanEntry>, n: nat, picks: seq<(nat, nat)>)
    requires Disjoint(plan) && n < |plan| && PicksPlanned(plan, n, picks)
    ensures forall a: nat | a < |plan[n].batch| :: !Picked(picks, plan[n].batch[a])
  {
    forall a: nat, i: nat | a < |plan[n].batch| && i < |picks| ensures picks[i].0 != plan[n].batch[a] {
      assert InPlan(plan, n, picks[i].0);
      var p: nat :| p < n && p < |plan| && picks[i].0 in plan[p].batch;
      assert plan[n].batch[a] in plan[n].batch;
    }
  }

  lemma PicksPlannedGrow(plan: seq<PlanEntry>, n: nat, m: nat, before: seq<(nat, nat)>, after: seq<(nat, nat)>)
    requires n <= m && PicksPlanned(plan, n, before) && before <= after
    requires forall i: nat | |before| <= i < |after| :: InPlan(plan, m, after[i].0)
    ensures PicksPlanned(plan, m, after)
  {
    forall i: nat | i < |after| ensures InPlan(plan, m, after[i].0) {
      if i < |before| {
        assert after[i] == before[i];
        assert InPlan(plan, n, before[i].0);
      }
    }
  }

  /** Leftovers of a component survive picks made elsewhere. */
  lemma ResidualSurvives(plan: seq<PlanEntry>, n: nat, m: nat, before: seq<(nat, nat)>, after: seq<(nat, nat)>,
                         comp: nat, rest: seq<nat>)
    requires n <= m && before <= after && ResidualOk(plan, n, before, comp, rest)
    requires forall i: nat, x: nat | |before| <= i < |after| && x in rest :: after[i].0 != x
    ensures ResidualOk(plan, m, after, comp, rest)
  {
    forall x: nat | x in rest ensures !Picked(after, x) && FromComponent(plan, m, comp, x) {
      forall i: nat | i < |after| ensures after[i].0 != x {
        if i < |before| {
          assert after[i] == before[i];
          assert !Picked(before, x);
        }
      }
      var p: nat :| p < n && p < |plan| && plan[p].comp == comp && x in plan[p].batch;
      assert p < m;
    }
  }

  // ----- the loop -----

  /** Everything the loop keeps after n planned batches. */
  ghost predicate Progress(plan: seq<PlanEntry>, n: nat, picks: seq<(nat, nat)>, residual: map<nat, seq<nat>>) {
    PicksPlanned(plan, n, picks) && ResidualsOk(plan, n, picks, residual)
  }

  ghost predicate Waits(residual: map<nat, seq<nat>>, di: nat) {
    exists comp: nat :: comp in residual && di in residual[comp]
  }

  /** A duty that somebody may take was offered, and is taken, or was offered again, or waits for that. */
  ghost predicate Considered(P: Problem, offers: seq<Offer>, picks: seq<(nat, nat)>, residual: map<nat, seq<nat>>,
                             di: nat)
  {
    Offered(P, offers, di) && (Picked(picks, di) || OfferedTwice(P, offers, di) || Waits(residual, di))
  }

  ghost predicate AllConsidered(P: Problem, plan: seq<PlanEntry>, n: nat, offers: seq<Offer>, picks: seq<(nat, nat)>,
                                residual: map<nat, seq<nat>>)
  {
    forall di: nat | HasEligible(P, di) && InPlan(plan, n, di) :: Considered(P, offers, picks, residual, di)
  }

  /** Only this component has leftovers waiting. */
  ghost predicate OnlyWaits(residual: map<nat, seq<nat>>, comp: nat) {
    forall other: nat | other in residual && residual[other] != [] :: other == comp
  }

  ghost predicate WaitsForCurrent(plan: seq<PlanEntry>, n: nat, residual: map<nat, seq<nat>>) {
    forall comp: nat | comp in residual && residual[comp] != [] :: n < |plan| && plan[n].comp == comp
  }

  lemma {:induction false} LeftoverHas(P: Problem, batch: seq<nat>, soldiers: seq<nat>, taken: set<nat>, di: nat)
    requires di in batch && di !in taken && SomeoneEligible(P, soldiers, di)
    ensures di in Leftover(P, batch, soldiers, taken)
  {
    if batch[0] != di {
      assert batch == [batch[0]] + batch[1..];
      LeftoverHas(P, batch[1..], soldiers, taken, di);
    }
  }

  /** The residual table after a batch. */
  function Joined(P: Problem, residual: map<nat, seq<nat>>, e: PlanEntry, taken: set<nat>): map<nat, seq<nat>> {
    residual[e.comp := (if e.comp in residual then residual[e.comp] else [])
                       + Leftover(P, e.batch, e.soldiers, taken)]
  }

  lemma StillConsidered(P: Problem, offers: seq<Offer>, o: Offer, before: seq<(nat, nat)>, after: seq<(nat, nat)>,
                        residual: map<nat, seq<nat>>, residual': map<nat, seq<nat>>, di: nat)
    requires Considered(P, offers, before, residual, di) && before <= after
    requires Waits(residual, di) ==> Waits(residual', di) || (OfferedAt(P, [o], 0, di) && o.again)
    ensures Considered(P, offers + [o], after, residual', di)
  {
    StillOffered(P, offers, o, di);
    if i: nat :| i < |before| && before[i].0 == di {
      assert after[i] == before[i];
    }
  }

  lemma BatchConsidered(P: Problem, e: PlanEntry, offers: seq<Offer>, o: Offer, after: seq<(nat, nat)>,
                        residual: map<nat, seq<nat>>, taken: set<nat>, di: nat)
    requires EntryOk(P, e) && HasEligible(P, di) && di in e.batch && (di in taken <==> Picked(after, di))
    requires o.batch == e.batch && o.soldiers == e.soldiers && !o.again
    ensures Considered(P, offers + [o], after, Joined(P, residual, e, taken), di)
  {
    assert OfferedAt(P, [o], 0, di);
    StillOffered(P, offers, o, di);
    if !Picked(after, di) {
      var si: nat :| si < |P.soldiers| && Eligible(P, di, si);
      var k :| 0 <= k < |e.soldiers| && e.soldiers[k] == si;
      LeftoverHas(P, e.batch, e.soldiers, taken, di);
      assert di in Joined(P, residual, e, taken)[e.comp];
    }
  }

  lemma BatchConsiders(P: Problem, plan: seq<PlanEntry>, n: nat, offers: seq<Offer>, o: Offer,
                       before: seq<(nat, nat)>, after: seq<(nat, nat)>, residual: map<nat, seq<nat>>, taken: set<nat>)
    requires PlanOk(P, plan) && n < |plan| && before <= after
    requires AllConsidered(P, plan, n, offers, before, residual)
    requires forall di: nat | di in plan[n].batch :: di in taken <==> Picked(after, di)
    requires o.batch == plan[n].batch && o.soldiers == plan[n].soldiers && !o.again
    ensures AllConsidered(P, plan, n + 1, offers + [o], after, Joined(P, residual, plan[n], taken))
  {
    var e, residual' := plan[n], Joined(P, residual, plan[n], taken);
    assert EntryOk(P, e);
    forall di: nat | HasEligible(P, di) && InPlan(plan, n + 1, di)
      ensures Considered(P, offers + [o], after, residual', di)
    {
      if di in e.batch {
        BatchConsidered(P, e, offers, o, after, residual, taken, di);
      } else {
        var p: nat :| p < n + 1 && p < |plan| && di in plan[p].batch;
        assert InPlan(plan, n, di);
        if comp: nat :| comp in residual && di in residual[comp] {
          assert di in residual'[comp];
        }
        StillConsidered(P, offers, o, before, after, residual, residual', di);
      }
    }
  }

  /** Leftovers are offered a second time to everyone who may take them. */
  lemma RetryConsiders(P: Problem, plan: seq<PlanEntry>, n: nat, m: nat, offers: seq<Offer>, o: Offer,
                       before: seq<(nat, nat)>, after: seq<(nat, nat)>, residual: map<nat, seq<nat>>)
    requires PlanOk(P, plan) && SharesSoldiers(plan) && n < |plan| && plan[n].comp in residual && before <= after
    requires Progress(plan, m, before, residual) && AllConsidered(P, plan, m, offers, before, residual)
    requires o.batch == residual[plan[n].comp] && o.soldiers == plan[n].soldiers && o.again
    ensures AllConsidered(P, plan, m, offers + [o], after, residual - {plan[n].comp})
  {
    var comp := plan[n].comp;
    forall di: nat | HasEligible(P, di) && InPlan(plan, m, di)
      ensures Considered(P, offers + [o], after, residual - {comp}, di)
    {
      if di in residual[comp] {
        LeftoverOffered(P, plan, n, m, before, residual, o, di);
      } else if other: nat :| other in residual && di in residual[other] {
        assert other in residual - {comp};
      }
      StillConsidered(P, offers, o, before, after, residual, residual - {comp}, di);
    }
  }

  lemma LeftoverOffered(P: Problem, plan: seq<PlanEntry>, n: nat, m: nat, picks: seq<(nat, nat)>,
                        residual: map<nat, seq<nat>>, o: Offer, di: nat)
    requires PlanOk(P, plan) && SharesSoldiers(plan) && n < |plan| && plan[n].comp in residual
    requires Progress(plan, m, picks, residual) && di in residual[plan[n].comp]
    requires o.batch == residual[plan[n].comp] && o.soldiers == plan[n].soldiers
    ensures OfferedAt(P, [o], 0, di)
  {
    var comp := plan[n].comp;
    assert ResidualOk(plan, m, picks, comp, residual[comp]);
    assert FromComponent(plan, m, comp, di);
    var p: nat :| p < m && p < |plan| && plan[p].comp == comp && di in plan[p].batch;
    assert EntryOk(P, plan[p]);
  }

  /** After a normal batch: its leftovers join those of its component. */
  lemma BatchProgress(P: Problem, plan: seq<PlanEntry>, n: nat, before: seq<(nat, nat)>, after: seq<(nat, nat)>,
                      residual: map<nat, seq<nat>>, taken: set<nat>)
    requires PlanOk(P, plan) && n < |plan| && Progress(plan, n, before, residual) && before <= after
    requires forall i: nat | |before| <= i < |after| :: after[i].0 in plan[n].batch
    requires forall di: nat | di in plan[n].batch :: di in taken <==> Picked(after, di)
    ensures Progress(plan, n + 1, after, Joined(P, residual, plan[n], taken))
  {
    var e := plan[n];
    var left := Leftover(P, e.batch, e.soldiers, taken);
    assert EntryOk(P, e);
    LeftoverNoRepeats(P, e.batch, e.soldiers, taken);
    forall di: nat | di in e.batch ensures InPlan(plan, n + 1, di) {
    }
    PicksPlannedGrow(plan, n, n + 1, before, after);
    forall comp: nat | comp in residual ensures ResidualOk(plan, n + 1, after, comp, residual[comp]) {
      assert ResidualOk(plan, n, before, comp, residual[comp]);
      ResidualApart(plan, n, before, comp, residual[comp]);
      ResidualSurvives(plan, n, n + 1, before, after, comp, residual[comp]);
    }
    forall x: nat | x in left ensures !Picked(after, x) && FromComponent(plan, n + 1, e.comp, x) {
    }
    if e.comp in residual {
      ResidualApart(plan, n, before, e.comp, residual[e.comp]);
      JoinNoRepeats(residual[e.comp], left);
    } else {
      assert [] + left == left;
    }
  }

  /** Leftovers of processed batches do not occur in the next batch. */
  lemma ResidualApart(plan: seq<PlanEntry>, n: nat, picks: seq<(nat, nat)>, comp: nat, rest: seq<nat>)
    requires Disjoint(plan) && n < |plan| && ResidualOk(plan, n, picks, comp, rest)
    ensures forall x: nat | x in rest :: x !in plan[n].batch
  {
    forall x: nat | x in rest ensures x !in plan[n].batch {
      assert FromComponent(plan, n, comp, x);
      var p: nat :| p < n && p < |plan| && plan[p].comp == comp && x in plan[p].batch;
    }
  }

  lemma JoinNoRepeats(s: seq<nat>, t: seq<nat>)
    requires NoRepeats(s) && NoRepeats(t) && forall x: nat | x in s :: x !in t
    ensures NoRepeats(s + t)
  {
    forall i, j | 0 <= i < j < |s + t| ensures (s + t)[i] != (s + t)[j] {
      if i < |s| <= j {
        assert s[i] in s && t[j - |s|] in t;
      }
    }
  }

  /** After the retry of a component's leftovers, those of other components are untouched. */
  lemma RetryProgress(plan: seq<PlanEntry>, n: nat, before: seq<(nat, nat)>, after: seq<(nat, nat)>,
                      residual: map<nat, seq<nat>>, comp: nat)
    requires Disjoint(plan) && Progress(plan, n, before, residual) && before <= after && comp in residual
    requires forall i: nat | |before| <= i < |after| :: after[i].0 in residual[comp]
    ensures Progress(plan, n, after, residual - {comp})
  {
    assert ResidualOk(plan, n, before, comp, residual[comp]);
    forall di: nat | di in residual[comp] ensures InPlan(plan, n, di) {
      assert FromComponent(plan, n, comp, di);
    }
    PicksPlannedGrow(plan, n, n, before, after);
    forall other: nat | other in residual - {comp} ensures ResidualOk(plan, n, after, other, residual[other]) {
      assert ResidualOk(plan, n, before, other, residual[other]);
      forall x: nat | x in residual[other] ensures x !in residual[comp] {
        assert FromComponent(plan, n, other, x);
        var p: nat :| p < n && p < |plan| && plan[p].comp == other && x in plan[p].batch;
        forall y: nat | y in residual[comp] ensures y != x {
          assert FromComponent(plan, n, comp, y);
          var q: nat :| q < n && q < |plan| && plan[q].comp == comp && y in plan[q].batch;
        }
      }
      ResidualSurvives(plan, n, n, before, after, other, residual[other]);
    }
  }

  lemma ResidualIsBatch(P: Problem, plan: seq<PlanEntry>, n: nat, picks: seq<(nat, nat)>, comp: nat, rest: seq<nat>,
                        soldiers: seq<nat>)
    requires PlanOk(P, plan) && ResidualOk(plan, n, picks, comp, rest)
    requires Below(soldiers, |P.soldiers|) && Increasing(soldiers)
    ensures IsBatch(P, rest, soldiers)
    ensures forall a: nat | a < |rest| :: !Picked(picks, rest[a])
  {
    forall a: nat | a < |rest| ensures rest[a] < |P.duties| && !Picked(picks, rest[a]) {
      assert rest[a] in rest;
      assert FromComponent(plan, n, comp, rest[a]);
      var p: nat :| p < n && p < |plan| && plan[p].comp == comp && rest[a] in plan[p].batch;
      assert EntryOk(P, plan[p]);
    }
  }

  // ----- the reported status -----

  function DutyIds(P: Problem, n: nat): set<Id>
    requires n <= |P.duties|
  {
    set i: nat | i < n :: P.duties[i].id
  }

  lemma {:induction false} DutyIdsCount(P: Problem, n: nat)
    requires DistinctDuties(P) && n <= |P.duties|
    ensures |DutyIds(P, n)| == n
  {
    if n > 0 {
      DutyIdsCount(P, n - 1);
      assert DutyIds(P, n) == DutyIds(P, n - 1) + {P.duties[n - 1].id};
      assert P.duties[n - 1].id !in DutyIds(P, n - 1);
    }
  }

  function AssignedIds(assignments: seq<Assignment>): set<Id> {
    set a | a in assignments :: a.duty
  }

  lemma SubsetOfSameSize<T>(a: set<T>, b: set<T>)
    requires a <= b && |a| == |b|
    ensures a == b
  {
    assert b == a + (b - a);
  }

  lemma AssignedIdsListed(P: Problem, picks: seq<(nat, nat)>, id: Id)
    requires Within(P, picks)
    ensures id in AssignedIds(AssignmentsOf(P, picks)) <==>
            exists i: nat :: i < |picks| && P.duties[picks[i].0].id == id
  {
    var assignments := AssignmentsOf(P, picks);
    if id in AssignedIds(assignments) {
      var a :| a in assignments && a.duty == id;
      var i: nat :| i < |assignments| && assignments[i] == a;
      assert P.duties[picks[i].0].id == id;
    }
    if i: nat :| i < |picks| && P.duties[picks[i].0].id == id {
      assert assignments[i] in assignments;
    }
  }

  lemma AssignedIsPicked(P: Problem, picks: seq<(nat, nat)>, di: nat)
    requires DistinctDuties(P) && Within(P, picks) && di < |P.duties|
    ensures P.duties[di].id in AssignedIds(AssignmentsOf(P, picks)) <==> Picked(picks, di)
  {
    AssignedIdsListed(P, picks, P.duties[di].id);
    if i: nat :| i < |picks| && P.duties[picks[i].0].id == P.duties[di].id {
      SameDuty(P, picks[i].0, di);
    }
  }

  /** As many assigned identifiers as duties means every duty is assigned. */
  lemma CountMeansAll(P: Problem, assignments: seq<Assignment>, picks: seq<(nat, nat)>)
    requires DistinctDuties(P) && Within(P, picks) && assignments == AssignmentsOf(P, picks)
    ensures |AssignedIds(assignments)| == |P.duties| <==> forall di: nat | di < |P.duties| :: Picked(picks, di)
  {
    var all, got := DutyIds(P, |P.duties|), AssignedIds(assignments);
    DutyIdsCount(P, |P.duties|);
    forall id | id in got ensures id in all {
      AssignedIdsListed(P, picks, id);
    }
    forall di: nat | di < |P.duties| ensures P.duties[di].id in got <==> Picked(picks, di) {
      AssignedIsPicked(P, picks, di);
    }
    if |got| == |P.duties| {
      SubsetOfSameSize(got, all);
      forall di: nat | di < |P.duties| ensures Picked(picks, di) {
        assert P.duties[di].id in all;
      }
    }
    if forall di: nat | di < |P.duties| :: Picked(picks, di) {
      assert all <= got;
      assert got == all;
    }
  }

  lemma SameDuty(P: Problem, i: nat, j: nat)
    requires DistinctDuties(P) && i < |P.duties| && j < |P.duties| && P.duties[i].id == P.duties[j].id
    ensures i == j
  {
  }

  /** What the run and the table of leftovers keep after n planned batches. */
  ghost predicate Underway(solver: Solver, P: Problem, c: Ceilings, plan: seq<PlanEntry>, n: nat, offers: seq<Offer>,
                           picks: seq<(nat, nat)>, residual: map<nat, seq<nat>>)
  {
    && Progress(plan, n, picks, residual)
    && AllConsidered(P, plan, n, offers, picks, residual)
    && AllAnswered(solver, P, c, offers)
    && Staged(offers) && AsPlanned(plan, offers) && NextStage(plan, n, offers)
  }

  /** Each batch that was asked has component and soldiers of some entry of the plan. */
  ghost predicate AsPlanned(plan: seq<PlanEntry>, offers: seq<Offer>) {
    forall k | 0 <= k < |offers| :: OfEntry(plan, offers[k])
  }

  ghost predicate OfEntry(plan: seq<PlanEntry>, o: Offer) {
    exists p: nat :: p < |plan| && plan[p].comp == o.comp && plan[p].soldiers == o.soldiers
  }

  /** The components asked so far do not lie behind the n-th entry, those with their leftovers lie before it. */
  ghost predicate NextStage(plan: seq<PlanEntry>, n: nat, offers: seq<Offer>) {
    n < |plan| ==> forall k | 0 <= k < |offers| ::
      offers[k].comp <= plan[n].comp && (offers[k].again ==> offers[k].comp < plan[n].comp)
  }

  /** A batch of the n-th entry, or its component's leftovers, follows in order. */
  lemma FollowsInOrder(plan: seq<PlanEntry>, n: nat, offers: seq<Offer>, o: Offer)
    requires SharesSoldiers(plan) && n < |plan|
    requires Staged(offers) && AsPlanned(plan, offers) && NextStage(plan, n, offers)
    requires o.comp == plan[n].comp && o.soldiers == plan[n].soldiers
    ensures Staged(offers + [o]) && AsPlanned(plan, offers + [o])
    ensures !o.again ==> NextStage(plan, n, offers + [o])
    ensures InOrder(plan) && (!o.again || (n + 1 < |plan| ==> plan[n + 1].comp != o.comp)) ==>
              NextStage(plan, n + 1, offers + [o])
  {
    var all := offers + [o];
    forall k | 0 <= k < |offers|
      ensures offers[k].comp <= o.comp
      ensures offers[k].comp == o.comp ==> !offers[k].again && offers[k].soldiers == o.soldiers
    {
      assert OfEntry(plan, offers[k]);
    }
    OneMoreStage(offers, o);
    forall k | 0 <= k < |all| ensures OfEntry(plan, all[k]) {
      assert k < |offers| ==> all[k] == offers[k] && OfEntry(plan, offers[k]);
    }
  }

  /** Once nothing waits any more, every duty that somebody may take is taken or was offered twice. */
  lemma NothingWaits(P: Problem, plan: seq<PlanEntry>, n: nat, offers: seq<Offer>, picks: seq<(nat, nat)>,
                     residual: map<nat, seq<nat>>)
    requires n >= |plan| && WaitsForCurrent(plan, n, residual) && AllConsidered(P, plan, n, offers, picks, residual)
    requires forall di: nat | di < |P.duties| :: HasEligible(P, di) <==> InPlan(plan, |plan|, di)
    ensures EveryoneAsked(P, offers, picks)
  {
    forall di: nat | HasEligible(P, di)
      ensures Offered(P, offers, di) && (Picked(picks, di) || OfferedTwice(P, offers, di))
    {
      var si: nat :| si < |P.soldiers| && Eligible(P, di, si);
      assert InPlan(plan, n, di);
      assert Considered(P, offers, picks, residual, di);
    }
  }

  /** Each duty that somebody may take was offered to all who may take it, twice if it is still open. */
  ghost predicate EveryoneAsked(P: Problem, offers: seq<Offer>, picks: seq<(nat, nat)>) {
    forall di: nat | HasEligible(P, di) ::
      Offered(P, offers, di) && (Picked(picks, di) || OfferedTwice(P, offers, di))
  }

  /** The assignments are the picks under their identifiers. */
  ghost predicate Reports(P: Problem, assignments: seq<Assignment>, picks: seq<(nat, nat)>) {
    && |assignments| == |picks|
    && forall i | 0 <= i < |picks| :: picks[i].0 < |P.duties| && picks[i].1 < |P.soldiers|
         && assignments[i].duty == P.duties[picks[i].0].id && assignments[i].soldier == P.soldiers[picks[i].1].id
  }

  /** The loop over the planned batches. */
  method RunPlan(P: Problem, c: Ceilings, batchSize: nat, solver: Solver, run: Run) returns (status: Status)
    requires DistinctDuties(P) && batchSize > 0 && solver.Sound()
    requires run.P == P && run.c == c && run.Valid() && run.offers == []
    modifies solver, run
    ensures run.Valid() && AllAnswered(solver, P, c, run.offers) && Staged(run.offers)
    ensures LookedEachTime(solver, old(solver.clock), solver.clock, run.offers)
    ensures status.Stopped? ==> solver.CancelSeen(old(solver.clock), solver.clock)
    ensures !status.Stopped? ==> EveryoneAsked(P, run.offers, run.picks)
    ensures !status.Stopped? ==> StatusFits(P, run.assignments, run.picks, status)
  {
    var plan := MakePlan(P, batchSize);
    var residual: map<nat, seq<nat>> := map[];
    var n: nat := 0;
    NothingYet(solver, P, c, plan, run.offers, run.picks);
    while n < |plan|
      invariant n <= |plan| && run.Valid() && old(solver.clock) <= solver.clock
      invariant Underway(solver, P, c, plan, n, run.offers, run.picks, residual)
      invariant WaitsForCurrent(plan, n, residual)
      invariant LookedEachTime(solver, old(solver.clock), solver.clock, run.offers)
    {
      var stop;
      residual, stop := OneTurn(P, c, plan, n, run, solver, residual, old(solver.clock));
      if stop {
        return Stopped;
      }
      n := n + 1;
    }
    NothingWaits(P, plan, n, run.offers, run.picks, residual);
    status := Report(P, run.assignments, run.picks);
  }

  lemma NothingYet(solver: Solver, P: Problem, c: Ceilings, plan: seq<PlanEntry>, offers: seq<Offer>,
                   picks: seq<(nat, nat)>)
    requires offers == [] && picks == PicksOf(offers)
    ensures Underway(solver, P, c, plan, 0, offers, picks, map[]) && WaitsForCurrent(plan, 0, map[])
  {
  }

  ghost predicate StatusFits(P: Problem, assignments: seq<Assignment>, picks: seq<(nat, nat)>, status: Status) {
    && (status.Optimal? <==> forall di: nat | di < |P.duties| :: Picked(picks, di))
    && (status.NothingAssigned? <==> assignments == [] && P.duties != [])
  }

  method Report(P: Problem, assignments: seq<Assignment>, ghost picks: seq<(nat, nat)>) returns (status: Status)
    requires DistinctDuties(P) && Within(P, picks) && assignments == AssignmentsOf(P, picks)
    ensures StatusFits(P, assignments, picks, status) && !status.Stopped?
  {
    CountMeansAll(P, assignments, picks);
    status := if |AssignedIds(assignments)| == |P.duties| then Optimal else Feasible;
    if assignments == [] && P.duties != [] {
      assert AssignedIds(assignments) == {};
      status := NothingAssigned;
    }
  }

  lemma SeenNow(solver: Solver, t: nat, to: nat)
    requires t < to && solver.cancelSet(t)
    ensures solver.CancelSeen(t, to)
  {
  }

  /** One planned batch, and after a component's last one its leftovers once more. */
  method OneTurn(P: Problem, c: Ceilings, plan: seq<PlanEntry>, n: nat, run: Run, solver: Solver,
                 residual: map<nat, seq<nat>>, ghost from: nat)
    returns (residual': map<nat, seq<nat>>, stop: bool)
    requires PlanOk(P, plan) && SharesSoldiers(plan) && InOrder(plan) && n < |plan|
    requires run.P == P && run.c == c && run.Valid() && solver.Sound()
    requires Underway(solver, P, c, plan, n, run.offers, run.picks, residual) && WaitsForCurrent(plan, n, residual)
    requires from <= solver.clock && LookedEachTime(solver, from, solver.clock, run.offers)
    modifies run, solver
    ensures run.Valid() && old(solver.clock) <= solver.clock
    ensures AllAnswered(solver, P, c, run.offers) && Staged(run.offers)
    ensures LookedEachTime(solver, from, solver.clock, run.offers)
    ensures stop ==> solver.CancelSeen(old(solver.clock), solver.clock)
    ensures !stop ==> Underway(solver, P, c, plan, n + 1, run.offers, run.picks, residual')
    ensures !stop ==> WaitsForCurrent(plan, n + 1, residual')
  {
    residual' := residual;
    ghost var looked := solver.clock;
    stop := solver.IsCancelled();
    if stop {
      SeenNow(solver, looked, solver.clock);
      return;
    }
    residual', stop := PlannedBatch(P, c, plan, n, run, solver, residual, from, looked);
    if stop {
      return;
    }
    var comp := plan[n].comp;
    if (n + 1 == |plan| || plan[n + 1].comp != comp) && comp in residual' && residual'[comp] != [] {
      residual', stop := RetryUnlessCancelled(P, c, plan, n, run, solver, residual', from);
    }
  }

  method RetryUnlessCancelled(P: Problem, c: Ceilings, plan: seq<PlanEntry>, n: nat, run: Run, solver: Solver,
                              residual: map<nat, seq<nat>>, ghost from: nat)
    returns (residual': map<nat, seq<nat>>, stop: bool)
    requires PlanOk(P, plan) && SharesSoldiers(plan) && InOrder(plan) && n < |plan| && plan[n].comp in residual
    requires n + 1 < |plan| ==> plan[n + 1].comp != plan[n].comp
    requires run.P == P && run.c == c && run.Valid() && solver.Sound()
    requires Underway(solver, P, c, plan, n + 1, run.offers, run.picks, residual)
    requires NextStage(plan, n, run.offers) && OnlyWaits(residual, plan[n].comp)
    requires from <= solver.clock && LookedEachTime(solver, from, solver.clock, run.offers)
    modifies run, solver
    ensures run.Valid() && old(solver.clock) <= solver.clock
    ensures AllAnswered(solver, P, c, run.offers) && Staged(run.offers)
    ensures LookedEachTime(solver, from, solver.clock, run.offers)
    ensures stop ==> solver.CancelSeen(old(solver.clock), solver.clock)
    ensures !stop ==> Underway(solver, P, c, plan, n + 1, run.offers, run.picks, residual')
    ensures !stop ==> forall comp: nat | comp in residual' :: residual'[comp] == []
  {
    residual' := residual;
    ghost var looked := solver.clock;
    stop := solver.IsCancelled();
    if stop {
      SeenNow(solver, looked, solver.clock);
      return;
    }
    residual', stop := RetryLeftovers(P, c, plan, n, run, solver, residual, from, looked);
  }

  method PlannedBatch(P: Problem, c: Ceilings, plan: seq<PlanEntry>, n: nat, run: Run, solver: Solver,
                      residual: map<nat, seq<nat>>, ghost from: nat, ghost looked: nat)
    returns (residual': map<nat, seq<nat>>, cancelled: bool)
    requires PlanOk(P, plan) && SharesSoldiers(plan) && InOrder(plan) && n < |plan|
    requires run.P == P && run.c == c && run.Valid() && solver.Sound()
    requires Underway(solver, P, c, plan, n, run.offers, run.picks, residual) && WaitsForCurrent(plan, n, residual)
    requires from <= looked < solver.clock && !solver.cancelSet(looked)
    requires LookedEachTime(solver, from, looked, run.offers)
    modifies run, solver
    ensures run.Valid() && old(solver.clock) <= solver.clock
    ensures AllAnswered(solver, P, c, run.offers) && Staged(run.offers)
    ensures LookedEachTime(solver, from, solver.clock, run.offers)
    ensures cancelled ==> solver.CancelSeen(old(solver.clock), solver.clock)
    ensures !cancelled ==> Underway(solver, P, c, plan, n + 1, run.offers, run.picks, residual')
    ensures !cancelled ==> NextStage(plan, n, run.offers) && OnlyWaits(residual', plan[n].comp)
  {
    residual' := residual;
    var e := plan[n];
    assert EntryOk(P, e);
    UnprocessedUnpicked(plan, n, run.picks);
    ghost var before, offers := run.picks, run.offers;
    var taken;
    cancelled, taken := run.RunBatch(solver, e.batch, e.soldiers, e.comp, false, looked);
    if cancelled {
      return;
    }
    ghost var x: Point :| run.offers == offers + [Offer(e.comp, false, looked, e.batch, e.soldiers, x)]
                          && IsAnswer(solver, P, c, before, Offer(e.comp, false, looked, e.batch, e.soldiers, x));
    ghost var offer := Offer(e.comp, false, looked, e.batch, e.soldiers, x);
    OneMoreLook(solver, from, looked, solver.clock, offers, offer);
    BatchKeeps(solver, P, c, plan, n, offers, offer, before, run.picks, residual, taken);
    residual' := Joined(P, residual, e, taken);
  }

  /** A planned batch that was answered keeps everything that the loop keeps. */
  lemma BatchKeeps(solver: Solver, P: Problem, c: Ceilings, plan: seq<PlanEntry>, n: nat, offers: seq<Offer>, o: Offer,
                   before: seq<(nat, nat)>, after: seq<(nat, nat)>, residual: map<nat, seq<nat>>, taken: set<nat>)
    requires PlanOk(P, plan) && SharesSoldiers(plan) && InOrder(plan) && n < |plan|
    requires Underway(solver, P, c, plan, n, offers, before, residual) && WaitsForCurrent(plan, n, residual)
    requires before == PicksOf(offers) && before <= after && IsAnswer(solver, P, c, before, o)
    requires o.comp == plan[n].comp && !o.again && o.batch == plan[n].batch && o.soldiers == plan[n].soldiers
    requires forall i: nat | |before| <= i < |after| :: after[i].0 in plan[n].batch
    requires forall di: nat | di in plan[n].batch :: di in taken <==> Picked(after, di)
    ensures Underway(solver, P, c, plan, n + 1, offers + [o], after, Joined(P, residual, plan[n], taken))
    ensures NextStage(plan, n, offers + [o]) && OnlyWaits(Joined(P, residual, plan[n], taken), plan[n].comp)
  {
    OneMoreAnswered(solver, P, c, offers, o);
    FollowsInOrder(plan, n, offers, o);
    BatchProgress(P, plan, n, before, after, residual, taken);
    BatchConsiders(P, plan, n, offers, o, before, after, residual, taken);
  }

  method RetryLeftovers(P: Problem, c: Ceilings, plan: seq<PlanEntry>, n: nat, run: Run, solver: Solver,
                        residual: map<nat, seq<nat>>, ghost from: nat, ghost looked: nat)
    returns (residual': map<nat, seq<nat>>, cancelled: bool)
    requires PlanOk(P, plan) && SharesSoldiers(plan) && InOrder(plan) && n < |plan| && plan[n].comp in residual
    requires n + 1 < |plan| ==> plan[n + 1].comp != plan[n].comp
    requires run.P == P && run.c == c && run.Valid() && solver.Sound()
    requires Underway(solver, P, c, plan, n + 1, run.offers, run.picks, residual)
    requires NextStage(plan, n, run.offers) && OnlyWaits(residual, plan[n].comp)
    requires from <= looked < solver.clock && !solver.cancelSet(looked)
    requires LookedEachTime(solver, from, looked, run.offers)
    modifies run, solver
    ensures run.Valid() && old(solver.clock) <= solver.clock
    ensures AllAnswered(solver, P, c, run.offers) && Staged(run.offers)
    ensures LookedEachTime(solver, from, solver.clock, run.offers)
    ensures cancelled ==> solver.CancelSeen(old(solver.clock), solver.clock)
    ensures !cancelled ==> Underway(solver, P, c, plan, n + 1, run.offers, run.picks, residual')
    ensures !cancelled ==> forall comp: nat | comp in residual' :: residual'[comp] == []
  {
    var e := plan[n];
    var rest := residual[e.comp];
    residual' := residual - {e.comp};
    assert EntryOk(P, e);
    ResidualIsBatch(P, plan, n + 1, run.picks, e.comp, rest, e.soldiers);
    ghost var before, offers := run.picks, run.offers;
    var taken;
    cancelled, taken := run.RunBatch(solver, rest, e.soldiers, e.comp, true, looked);
    if !cancelled {
      ghost var x: Point :| run.offers == offers + [Offer(e.comp, true, looked, rest, e.soldiers, x)]
                            && IsAnswer(solver, P, c, before, Offer(e.comp, true, looked, rest, e.soldiers, x));
      ghost var offer := Offer(e.comp, true, looked, rest, e.soldiers, x);
      OneMoreLook(solver, from, looked, solver.clock, offers, offer);
      RetryKeeps(solver, P, c, plan, n, offers, offer, before, run.picks, residual);
    }
  }

  /** So does a retry of the leftovers. */
  lemma RetryKeeps(solver: Solver, P: Problem, c: Ceilings, plan: seq<PlanEntry>, n: nat, offers: seq<Offer>, o: Offer,
                   before: seq<(nat, nat)>, after: seq<(nat, nat)>, residual: map<nat, seq<nat>>)
    requires PlanOk(P, plan) && SharesSoldiers(plan) && InOrder(plan) && n < |plan| && plan[n].comp in residual
    requires n + 1 < |plan| ==> plan[n + 1].comp != plan[n].comp
    requires Underway(solver, P, c, plan, n + 1, offers, before, residual)
    requires NextStage(plan, n, offers) && OnlyWaits(residual, plan[n].comp)
    requires before == PicksOf(offers) && before <= after && IsAnswer(solver, P, c, before, o)
    requires o.comp == plan[n].comp && o.again && o.batch == residual[plan[n].comp] && o.soldiers == plan[n].soldiers
    requires forall i: nat | |before| <= i < |after| :: after[i].0 in residual[plan[n].comp]
    ensures Underway(solver, P, c, plan, n + 1, offers + [o], after, residual - {plan[n].comp})
    ensures forall comp: nat | comp in residual - {plan[n].comp} :: residual[comp] == []
  {
    OneMoreAnswered(solver, P, c, offers, o);
    FollowsInOrder(plan, n, offers, o);
    RetryProgress(plan, n + 1, before, after, residual, plan[n].comp);
    RetryConsiders(P, plan, n, n + 1, offers, o, before, after, residual);
  }

  /**
   The batched run. Whatever the solver answers and whenever it is cancelled, the roster it
   returns is good and made of the solver's answers. It stops early only when the cancel event is
   set, and it looks before every batch; otherwise every duty that somebody may take was put to the
   solver, once more after the rest of its component if it is still open, and the run is reported
   optimal exactly when every duty is assigned.
   */
  method Solve(P: Problem, c: Ceilings, batchSize: nat, solver: Solver) returns (status: Status, run: Run)
    requires DistinctSoldiers(P) && DistinctDuties(P) && batchSize > 0 && solver.Sound()
    modifies solver
    ensures fresh(run) && run.P == P && run.c == c && run.Valid()
    ensures GoodRoster(P, c, run.picks) && Reports(P, run.assignments, run.picks)
    ensures AllAnswered(solver, P, c, run.offers) && run.picks == PicksOf(run.offers) && Staged(run.offers)
    ensures LookedEachTime(solver, old(solver.clock), solver.clock, run.offers)
    ensures status.Stopped? ==> solver.CancelSeen(old(solver.clock), solver.clock)
    ensures !status.Stopped? ==> EveryoneAsked(P, run.offers, run.picks)
    ensures !status.Stopped? ==> StatusFits(P, run.assignments, run.picks, status)
  {
    run := new Run(P, c);
    status := RunPlan(P, c, batchSize, solver, run);
    RosterIsGood(P, c, run.picks);
  }
}
