/**
 The whole emission: one pass over duties for coverage and quotas, then over soldiers for
 overlap, rest and density.
 */
module BuildModel {
  import opened Domain
  import opened HardModel
  import opened Constraints
  import opened CoverageRules
  import opened OverlapRules
  import opened RestRules
  import opened WindowRules

  ghost predicate SoldiersOk(P: Problem, x: Point, n: nat)
    requires n <= |P.soldiers|
  {
    forall si: nat | si < n :: SoldierOk(P, x, si)
  }

  /** The constraints say that the first n soldiers are well served. */
  ghost predicate SaysSoldiers(P: Problem, n: nat, cs: seq<Constraint>)
    requires n <= |P.soldiers|
  {
    forall x: Point, k: set<nat> | OverVariables(P, x) :: AllHold(cs, x, k) <==> SoldiersOk(P, x, n)
  }

  /** The constraints of one soldier, family by family. */
  ghost predicate SaysSoldier(P: Problem, si: nat, x: Point, k: set<nat>, overlap: seq<Constraint>,
                              rest: seq<Constraint>,
                              windows: seq<Constraint>)
    requires si < |P.soldiers|
  {
    AllHold(overlap, x, k) && AllHold(rest, x, k) && AllHold(windows, x, k) <==> SoldierOk(P, x, si)
  }

  lemma OneMoreSoldier(P: Problem, si: nat, cs: seq<Constraint>, overlap: seq<Constraint>, rest: seq<Constraint>,
                       windows: seq<Constraint>)
    requires si < |P.soldiers| && SaysSoldiers(P, si, cs)
    requires forall x: Point, k: set<nat> | OverVariables(P, x) :: SaysSoldier(P, si, x, k, overlap, rest, windows)
    ensures SaysSoldiers(P, si + 1, cs + (overlap + rest + windows))
  {
    var added := overlap + rest + windows;
    forall x: Point, k: set<nat> | OverVariables(P, x)
      ensures AllHold(cs + added, x, k) <==> SoldiersOk(P, x, si + 1)
    {
      AllHoldAppend(overlap, rest, x, k);
      AllHoldAppend(overlap + rest, windows, x, k);
      AllHoldAppend(cs, added, x, k);
      assert SaysSoldier(P, si, x, k, overlap, rest, windows);
      SoldiersOkMore(P, x, si);
    }
  }

  lemma SoldiersOkMore(P: Problem, x: Point, n: nat)
    requires n < |P.soldiers|
    ensures SoldiersOk(P, x, n + 1) <==> SoldiersOk(P, x, n) && SoldierOk(P, x, n)
  {
  }

  method EmitSoldiers(P: Problem) returns (cs: seq<Constraint>)
    requires forall d | d in P.duties :: ClockTime(d.startTime) && ClockTime(d.endTime)
    ensures SaysSoldiers(P, |P.soldiers|, cs)
  {
    cs := [];
    var si: nat := 0;
    while si < |P.soldiers|
      invariant si <= |P.soldiers| && SaysSoldiers(P, si, cs)
    {
      var overlap := EmitOverlap(P, si);
      var rest := EmitRest(P, si);
      var windows := EmitWindows(P, si);
      OneMoreSoldier(P, si, cs, overlap, rest, windows);
      cs := cs + (overlap + rest + windows);
      si := si + 1;
    }
  }

  /**
   The emitted constraints have a solution on given choice variables exactly when the
   choices meet every hard constraint: nothing is lost and nothing is added.
   */
  method Build(P: Problem, cov: Coverage) returns (cs: seq<Constraint>)
    requires forall d | d in P.duties :: ClockTime(d.startTime) && ClockTime(d.endTime)
    ensures forall x: Point | OverVariables(P, x) ::
      (exists k: set<nat> :: AllHold(cs, x, k)) <==> HardSat(P, x, cov)
  {
    var coverage := EmitCoverage(P, cov);
    var quotas := EmitQuotas(P, cov);
    var soldiers := EmitSoldiers(P);
    cs := coverage + quotas + soldiers;
    forall x: Point | OverVariables(P, x)
      ensures (exists k: set<nat> :: AllHold(cs, x, k)) <==> HardSat(P, x, cov)
    {
      forall k: set<nat>
        ensures AllHold(cs, x, k) <==>
                && (forall di: nat | di < |P.duties| :: CoverageOk(P, x, cov, di))
                && AllQuotasReified(P, x, cov, k)
                && SoldiersOk(P, x, |P.soldiers|)
      {
        AllHoldAppend(coverage, quotas, x, k);
        AllHoldAppend(coverage + quotas, soldiers, x, k);
      }
      if forall di: nat | di < |P.duties| :: CoverageOk(P, x, cov, di) {
        QuotasUnreified(P, x, cov);
      }
      HardSatByFamily(P, x, cov);
    }
  }

  lemma HardSatByFamily(P: Problem, x: Point, cov: Coverage)
    requires OverVariables(P, x)
    ensures HardSat(P, x, cov) <==>
            && (forall di: nat | di < |P.duties| :: CoverageOk(P, x, cov, di))
            && (forall di: nat | di < |P.duties| :: QuotaOk(P, x, cov, di))
            && SoldiersOk(P, x, |P.soldiers|)
  {
    if HardSat(P, x, cov) {
      forall di: nat | di < |P.duties| ensures CoverageOk(P, x, cov, di) && QuotaOk(P, x, cov, di) {
        assert DutyOk(P, x, cov, di);
      }
    }
  }
}
