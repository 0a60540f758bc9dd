/** Coverage and node-quota constraints of one solve. */
module CoverageRules {
  import opened Domain
  import opened Sums
  import opened HardModel
  import opened Constraints

  // ----- coverage -----

  /** The number of soldiers a point gives to a duty. */
  lemma DutyCount(P: Problem, x: Point, di: nat)
    requires OverVariables(P, x)
    ensures var v := Value(DutyTerms(di, EligibleSoldiers(P, di)), x);
            && v >= 0
            && (v <= 1 <==> forall si: nat, sj: nat :: (di, si) in x && (di, sj) in x ==> si == sj)
            && (v == 0 <==> !Covered(x, di))
  {
    var n := |P.soldiers|;
    var p := (si: nat) => (di, si) in x && Eligible(P, di, si);
    DutyTermsCount(di, n, (si: nat) => Eligible(P, di, si), x);
    SumExt(n, Bits((si: nat) => (di, si) in x && ((si: nat) => Eligible(P, di, si))(si)), Bits(p));
    CountIsZero(n, p);
    CountAtMostOne(n, p);
    assert forall si: nat :: (di, si) in x ==> si < n && p(si);
    if forall si: nat, sj: nat :: (di, si) in x && (di, sj) in x ==> si == sj {
      assert forall i: nat, j: nat | i < j < n :: !(p(i) && p(j));
    } else {
      var si: nat, sj: nat :| (di, si) in x && (di, sj) in x && si != sj;
      var i, j := if si < sj then si else sj, if si < sj then sj else si;
      assert i < j < n && p(i) && p(j);
    }
  }

  lemma NoVariables(P: Problem, di: nat)
    ensures EligibleSoldiers(P, di) == [] <==> !HasEligible(P, di)
    ensures DutyTerms(di, EligibleSoldiers(P, di)) == [] <==> !HasEligible(P, di)
  {
    var sis := EligibleSoldiers(P, di);
    if HasEligible(P, di) {
      var si: nat :| si < |P.soldiers| && Eligible(P, di, si);
      assert si in sis;
    }
    if sis != [] {
      assert sis[0] in sis;
    }
  }

  function CoverageConstraints(vars: seq<Term>, cov: Coverage): seq<Constraint> {
    if vars == [] then [] else if cov.Soft? then [AtMost(vars, 1)] else [Exactly(vars, 1)]
  }

  lemma CoverageEmitted(P: Problem, cov: Coverage, di: nat, x: Point, k: set<nat>)
    requires OverVariables(P, x)
    ensures AllHold(CoverageConstraints(DutyTerms(di, EligibleSoldiers(P, di)), cov), x, k)
            <==> CoverageOk(P, x, cov, di)
  {
    var vars := DutyTerms(di, EligibleSoldiers(P, di));
    NoVariables(P, di);
    DutyCount(P, x, di);
    if vars != [] {
      var c := if cov.Soft? then AtMost(vars, 1) else Exactly(vars, 1);
      assert CoverageConstraints(vars, cov) == [c];
      AllHoldSingle(c, x, k);
    }
  }

  method EmitCoverage(P: Problem, cov: Coverage) returns (cs: seq<Constraint>)
    ensures forall x: Point, k: set<nat> | OverVariables(P, x) ::
      AllHold(cs, x, k) <==> forall di: nat | di < |P.duties| :: CoverageOk(P, x, cov, di)
  {
    cs := [];
    var di: nat := 0;
    while di < |P.duties|
      invariant di <= |P.duties|
      invariant forall x: Point, k: set<nat> | OverVariables(P, x) ::
        AllHold(cs, x, k) <==> forall d: nat | d < di :: CoverageOk(P, x, cov, d)
    {
      var added := CoverageConstraints(DutyTerms(di, EligibleSoldiers(P, di)), cov);
      forall x: Point, k: set<nat> | OverVariables(P, x)
        ensures AllHold(cs + added, x, k) <==> AllHold(cs, x, k) && CoverageOk(P, x, cov, di)
      {
        AllHoldAppend(cs, added, x, k);
        CoverageEmitted(P, cov, di, x, k);
      }
      cs := cs + added;
      di := di + 1;
    }
  }

  // ----- node quotas -----

  function MatchingSoldiers(P: Problem, di: nat, node: Id): seq<nat> {
    Filter(|P.soldiers|, (si: nat) => Matches(P, di, node, si))
  }

  lemma MatchCount(P: Problem, x: Point, di: nat, node: Id)
    ensures Value(DutyTerms(di, MatchingSoldiers(P, di, node)), x) == QuotaCount(P, x, di, node)
    ensures DutyTerms(di, MatchingSoldiers(P, di, node)) == [] <==> !HasMatch(P, di, node)
  {
    var n := |P.soldiers|;
    var p := (si: nat) => Matches(P, di, node, si);
    DutyTermsCount(di, n, p, x);
    SumExt(n, Bits((si: nat) => (di, si) in x && p(si)),
           Bits((si: nat) => (di, si) in x && Matches(P, di, node, si)));
    var sis := MatchingSoldiers(P, di, node);
    if HasMatch(P, di, node) {
      var si: nat :| si < n && Matches(P, di, node, si);
      assert si in sis;
    }
    if sis != [] {
      assert sis[0] in sis;
    }
  }

  /** One quota entry, under the reified "duty is covered" variable when coverage is soft. */
  ghost predicate QuotaReified(P: Problem, x: Point, cov: Coverage, di: nat, k: set<nat>, q: (Id, int)) {
    HasMatch(P, di, q.0) ==> cov.Hard? || di in k ==> QuotaCount(P, x, di, q.0) == q.1
  }

  /** "covered" is 1 exactly when the duty is taken. */
  ghost predicate CoveredDefined(P: Problem, x: Point, cov: Coverage, di: nat, k: set<nat>)
    requires di < |P.duties|
  {
    P.duties[di].nodeQuotas != [] && cov.Soft? && HasEligible(P, di) ==>
      Value(DutyTerms(di, EligibleSoldiers(P, di)), x) == if di in k then 1 else 0
  }

  ghost predicate QuotasReified(P: Problem, x: Point, cov: Coverage, di: nat, k: set<nat>)
    requires di < |P.duties|
  {
    && CoveredDefined(P, x, cov, di, k)
    && forall q | q in P.duties[di].nodeQuotas :: QuotaReified(P, x, cov, di, k, q)
  }

  function QuotaConstraint(P: Problem, cov: Coverage, di: nat, q: (Id, int)): seq<Constraint> {
    var vars := DutyTerms(di, MatchingSoldiers(P, di, q.0));
    if vars == [] then []
    else if cov.Soft? then [ExactlyIfCovered(vars, q.1, di)]
    else [Exactly(vars, q.1)]
  }

  lemma QuotaEmitted(P: Problem, cov: Coverage, di: nat, q: (Id, int), x: Point, k: set<nat>)
    ensures AllHold(QuotaConstraint(P, cov, di, q), x, k) <==> QuotaReified(P, x, cov, di, k, q)
  {
    var vars := DutyTerms(di, MatchingSoldiers(P, di, q.0));
    MatchCount(P, x, di, q.0);
    if vars != [] {
      var c := if cov.Soft? then ExactlyIfCovered(vars, q.1, di) else Exactly(vars, q.1);
      assert QuotaConstraint(P, cov, di, q) == [c];
      AllHoldSingle(c, x, k);
    }
  }

  method EmitDutyQuotas(P: Problem, cov: Coverage, di: nat) returns (cs: seq<Constraint>)
    requires di < |P.duties|
    ensures forall x: Point, k: set<nat> :: AllHold(cs, x, k) <==> QuotasReified(P, x, cov, di, k)
  {
    cs := [];
    var quotas := P.duties[di].nodeQuotas;
    if quotas == [] {
      return;
    }
    if cov.Soft? {
      var vars := DutyTerms(di, EligibleSoldiers(P, di));
      NoVariables(P, di);
      if vars != [] {
        cs := [DefinesCovered(vars, di)];
        assert forall x: Point, k: set<nat> :: AllHold(cs, x, k) <==> Holds(cs[0], x, k);
      }
    }
    var j: nat := 0;
    while j < |quotas|
      invariant j <= |quotas|
      invariant forall x: Point, k: set<nat> ::
        AllHold(cs, x, k) <==>
        CoveredDefined(P, x, cov, di, k) && forall i | 0 <= i < j :: QuotaReified(P, x, cov, di, k, quotas[i])
    {
      var added := QuotaConstraint(P, cov, di, quotas[j]);
      forall x: Point, k: set<nat>
        ensures AllHold(cs + added, x, k) <==> AllHold(cs, x, k) && QuotaReified(P, x, cov, di, k, quotas[j])
      {
        AllHoldAppend(cs, added, x, k);
        QuotaEmitted(P, cov, di, quotas[j], x, k);
      }
      cs := cs + added;
      j := j + 1;
    }
  }

  ghost predicate AllQuotasReified(P: Problem, x: Point, cov: Coverage, k: set<nat>) {
    forall di: nat | di < |P.duties| :: QuotasReified(P, x, cov, di, k)
  }

  method EmitQuotas(P: Problem, cov: Coverage) returns (cs: seq<Constraint>)
    ensures forall x: Point, k: set<nat> :: AllHold(cs, x, k) <==> AllQuotasReified(P, x, cov, k)
  {
    cs := [];
    var di: nat := 0;
    while di < |P.duties|
      invariant di <= |P.duties|
      invariant forall x: Point, k: set<nat> ::
        AllHold(cs, x, k) <==> forall d: nat | d < di :: QuotasReified(P, x, cov, d, k)
    {
      var added := EmitDutyQuotas(P, cov, di);
      forall x: Point, k: set<nat>
        ensures AllHold(cs + added, x, k) <==> AllHold(cs, x, k) && QuotasReified(P, x, cov, di, k)
      {
        AllHoldAppend(cs, added, x, k);
      }
      cs := cs + added;
      di := di + 1;
    }
  }

  /** Where "covered" means what it should, reified quotas are the quotas. */
  lemma DutyQuotasUnreified(P: Problem, x: Point, cov: Coverage, di: nat, k: set<nat>)
    requires di < |P.duties|
    requires cov.Soft? && P.duties[di].nodeQuotas != [] && HasEligible(P, di) ==> (di in k <==> Covered(x, di))
    ensures (forall q | q in P.duties[di].nodeQuotas :: QuotaReified(P, x, cov, di, k, q))
            <==> QuotaOk(P, x, cov, di)
  {
    forall q | q in P.duties[di].nodeQuotas && HasMatch(P, di, q.0) ensures HasEligible(P, di) {
      var si: nat :| si < |P.soldiers| && Matches(P, di, q.0, si);
      assert Eligible(P, di, si);
    }
    if QuotaOk(P, x, cov, di) {
      forall q | q in P.duties[di].nodeQuotas ensures QuotaReified(P, x, cov, di, k, q) {
      }
    }
    if forall q | q in P.duties[di].nodeQuotas :: QuotaReified(P, x, cov, di, k, q) {
      forall q | q in P.duties[di].nodeQuotas && HasMatch(P, di, q.0)
        ensures cov.Hard? || Covered(x, di) ==> QuotaCount(P, x, di, q.0) == q.1
      {
        assert QuotaReified(P, x, cov, di, k, q);
      }
    }
  }

  lemma CoveredIsTaken(P: Problem, x: Point, cov: Coverage, di: nat, k: set<nat>)
    requires OverVariables(P, x) && di < |P.duties| && CoverageOk(P, x, cov, di)
    requires P.duties[di].nodeQuotas != [] && cov.Soft? && HasEligible(P, di)
    ensures CoveredDefined(P, x, cov, di, k) <==> (di in k <==> Covered(x, di))
  {
    DutyCount(P, x, di);
  }

  /** The reified quotas are satisfiable exactly when the quotas themselves are met. */
  lemma QuotasUnreified(P: Problem, x: Point, cov: Coverage)
    requires OverVariables(P, x)
    requires forall di: nat | di < |P.duties| :: CoverageOk(P, x, cov, di)
    ensures (exists k: set<nat> :: AllQuotasReified(P, x, cov, k))
            <==> forall di: nat | di < |P.duties| :: QuotaOk(P, x, cov, di)
  {
    if exists k: set<nat> :: AllQuotasReified(P, x, cov, k) {
      var k: set<nat> :| AllQuotasReified(P, x, cov, k);
      forall di: nat | di < |P.duties| ensures QuotaOk(P, x, cov, di) {
        assert QuotasReified(P, x, cov, di, k);
        if P.duties[di].nodeQuotas != [] && cov.Soft? && HasEligible(P, di) {
          CoveredIsTaken(P, x, cov, di, k);
        }
        DutyQuotasUnreified(P, x, cov, di, k);
      }
    }
    if forall di: nat | di < |P.duties| :: QuotaOk(P, x, cov, di) {
      var k := set di: nat | di < |P.duties| && Covered(x, di);
      forall di: nat | di < |P.duties| ensures QuotasReified(P, x, cov, di, k) {
        if P.duties[di].nodeQuotas != [] && cov.Soft? && HasEligible(P, di) {
          CoveredIsTaken(P, x, cov, di, k);
        }
        DutyQuotasUnreified(P, x, cov, di, k);
      }
      assert AllQuotasReified(P, x, cov, k);
    }
  }
}
