/**
 Solving component by component is exact: a point meets the hard constraints of the whole
 run exactly when its restriction to each component meets the constraints of the model
 built from that component's duties and soldiers alone.
 */
module Decomposition {
  import opened Domain
  import opened Sums
  import opened HardModel
  import opened UnionFind
  import opened Components

  // ----- eligibility pairs -----

  /** By duty, then by soldier; in particular no pair twice. */
  ghost predicate LoopOrder(pairs: seq<(nat, nat)>) {
    forall i, j | 0 <= i < j < |pairs| ::
      pairs[i].0 < pairs[j].0 || (pairs[i].0 == pairs[j].0 && pairs[i].1 < pairs[j].1)
  }

  /** All (duty, soldier) positions the eligibility filter lets through. */
  method EligiblePairs(P: Problem) returns (pairs: seq<(nat, nat)>)
    ensures forall di: nat, si: nat :: (di, si) in pairs <==> Eligible(P, di, si)
    ensures LoopOrder(pairs)
  {
    pairs := [];
    var di: nat := 0;
    while di < |P.duties|
      invariant di <= |P.duties|
      invariant forall d: nat, s: nat :: (d, s) in pairs <==> d < di && Eligible(P, d, s)
      invariant LoopOrder(pairs)
    {
      var si: nat := 0;
      while si < |P.soldiers|
        invariant si <= |P.soldiers|
        invariant forall d: nat, s: nat ::
          (d, s) in pairs <==> (d < di || (d == di && s < si)) && Eligible(P, d, s)
        invariant LoopOrder(pairs)
      {
        if Eligible(P, di, si) {
          assert forall i | 0 <= i < |pairs| :: (pairs[i].0, pairs[i].1) in pairs;
          pairs := pairs + [(di, si)];
        }
        si := si + 1;
      }
      di := di + 1;
    }
  }

  // ----- the sub-problem of a component -----

  function Pick<T>(s: seq<T>, at: seq<nat>): (r: seq<T>)
    requires Below(at, |s|)
    ensures |r| == |at| && forall i | 0 <= i < |r| :: r[i] == s[at[i]]
  {
    seq(|at|, i requires 0 <= i < |at| => s[at[i]])
  }

  function SubProblem(P: Problem, c: Component): Problem
    requires Below(c.duties, |P.duties|) && Below(c.soldiers, |P.soldiers|)
  {
    P.(soldiers := Pick(P.soldiers, c.soldiers), duties := Pick(P.duties, c.duties))
  }

  /** The point seen through the component's own positions. */
  function Restrict(x: Point, c: Component): Point {
    set a: nat, b: nat | a < |c.duties| && b < |c.soldiers| && (c.duties[a], c.soldiers[b]) in x :: (a, b)
  }

  /** No eligible pair leaves the component. */
  ghost predicate Closed(P: Problem, c: Component) {
    && Shaped(c, |P.duties|, |P.soldiers|)
    && (forall di: nat, si: nat | Eligible(P, di, si) :: di in c.duties <==> si in c.soldiers)
  }

  /** The eligibility graph is the graph of exactly the eligible pairs. */
  ghost predicate IsEligibilityGraph(P: Problem, es: Edges) {
    && (forall di: nat, si: nat :: Eligible(P, di, si) <==> (di, |P.duties| + si) in es)
    && (forall di: nat, w: nat | (di, w) in es :: di < |P.duties| <= w)
  }

  lemma EdgeStaysInside(P: Problem, es: Edges, comps: seq<Component>, i: nat, di: nat, si: nat)
    requires DutiesByLink(es, comps) && SoldiersByLink(|P.duties|, |P.soldiers|, es, comps)
    requires i < |comps| && comps[i].duties != [] && InSome(comps, di)
    requires si < |P.soldiers| && Linked(es, di, |P.duties| + si)
    ensures di in comps[i].duties <==> si in comps[i].soldiers
  {
    if si in comps[i].soldiers {
      var d0 := comps[i].duties[0];
      assert d0 in comps[i].duties;
      LinkedSymmetric(es, di, |P.duties| + si);
      LinkedTransitive(es, d0, |P.duties| + si, di);
      var j: nat :| j < |comps| && di in comps[j].duties;
      assert i == j;
    }
  }

  lemma ComponentsClosed(P: Problem, es: Edges, comps: seq<Component>, i: nat)
    requires IsEligibilityGraph(P, es)
    requires IsDecomposition(|P.duties|, |P.soldiers|, es, comps) && i < |comps|
    ensures Closed(P, comps[i])
  {
    assert Shaped(comps[i], |P.duties|, |P.soldiers|);
    forall di: nat, si: nat | Eligible(P, di, si)
      ensures di in comps[i].duties <==> si in comps[i].soldiers
    {
      LinkedEdge(es, di, |P.duties| + si);
      assert InSome(comps, di);
      EdgeStaysInside(P, es, comps, i, di, si);
    }
  }

  /** A node linked to another node has an edge. */
  lemma LinkedHasEdge(es: Edges, u: nat, v: nat) returns (w: nat)
    requires Linked(es, u, v) && u != v
    ensures Adjacent(es, u, w)
  {
    var p :| Joins(es, p, u, v);
    assert |p| > 1;
    assert Adjacent(es, p[0], p[1]);
    w := p[1];
  }

  /** A component with a soldier has no duty that nobody may take. */
  lemma EveryDutyHasSomeone(P: Problem, es: Edges, comps: seq<Component>, i: nat, di: nat)
    requires IsEligibilityGraph(P, es)
    requires SoldiersByLink(|P.duties|, |P.soldiers|, es, comps)
    requires i < |comps| && Shaped(comps[i], |P.duties|, |P.soldiers|)
    requires di in comps[i].duties && comps[i].soldiers != []
    ensures HasEligible(P, di)
  {
    var k :| 0 <= k < |comps[i].duties| && comps[i].duties[k] == di;
    var si := comps[i].soldiers[0];
    assert si in comps[i].soldiers;
    var w := LinkedHasEdge(es, di, |P.duties| + si);
    assert (di, w) in es || (w, di) in es;
    var sj := w - |P.duties|;
    assert Eligible(P, di, sj);
  }

  // ----- seen from inside and from outside -----

  lemma RestrictMembership(x: Point, c: Component, a: nat, b: nat)
    requires a < |c.duties| && b < |c.soldiers|
    ensures (a, b) in Restrict(x, c) <==> (c.duties[a], c.soldiers[b]) in x
  {
  }

  /** Every choice for a duty of the component is visible inside it. */
  lemma DutySeen(P: Problem, c: Component, x: Point, a: nat)
    requires Closed(P, c) && OverVariables(P, x) && a < |c.duties|
    ensures forall si: nat | (c.duties[a], si) in x ::
      exists b: nat | b < |c.soldiers| :: c.soldiers[b] == si && (a, b) in Restrict(x, c)
    ensures forall si: nat | Eligible(P, c.duties[a], si) ::
      exists b: nat | b < |c.soldiers| :: c.soldiers[b] == si && Eligible(SubProblem(P, c), a, b)
  {
    assert c.duties[a] in c.duties;
    forall si: nat | Eligible(P, c.duties[a], si)
      ensures exists b: nat | b < |c.soldiers| :: c.soldiers[b] == si && Eligible(SubProblem(P, c), a, b)
      ensures (c.duties[a], si) in x ==>
                exists b: nat | b < |c.soldiers| :: c.soldiers[b] == si && (a, b) in Restrict(x, c)
    {
      assert si in c.soldiers;
      var b: nat :| b < |c.soldiers| && c.soldiers[b] == si;
      assert Eligible(SubProblem(P, c), a, b);
      RestrictMembership(x, c, a, b);
    }
  }

  lemma SoldierSeen(P: Problem, c: Component, x: Point, b: nat)
    requires Closed(P, c) && OverVariables(P, x) && b < |c.soldiers|
    ensures forall di: nat | (di, c.soldiers[b]) in x ::
      exists a: nat | a < |c.duties| :: c.duties[a] == di && (a, b) in Restrict(x, c)
  {
    assert c.soldiers[b] in c.soldiers;
    forall di: nat | (di, c.soldiers[b]) in x
      ensures exists a: nat | a < |c.duties| :: c.duties[a] == di && (a, b) in Restrict(x, c)
    {
      assert Eligible(P, di, c.soldiers[b]);
      assert di in c.duties;
      var a: nat :| a < |c.duties| && c.duties[a] == di;
      RestrictMembership(x, c, a, b);
    }
  }

  lemma IncreasingInjective(s: seq<nat>, i: nat, j: nat)
    requires Increasing(s) && i < |s| && j < |s|
    ensures s[i] == s[j] <==> i == j
    ensures s[i] < s[j] <==> i < j
  {
    assert i < j ==> s[i] < s[j];
    assert j < i ==> s[j] < s[i];
  }

  lemma RestrictOverVariables(P: Problem, c: Component, x: Point)
    requires Closed(P, c) && OverVariables(P, x)
    ensures OverVariables(SubProblem(P, c), Restrict(x, c))
  {
  }

  // ----- duty constraints -----

  lemma CoverageAgrees(P: Problem, c: Component, x: Point, cov: Coverage, a: nat)
    requires Closed(P, c) && OverVariables(P, x) && a < |c.duties|
    ensures Covered(x, c.duties[a]) <==> Covered(Restrict(x, c), a)
    ensures CoverageOk(P, x, cov, c.duties[a]) <==> CoverageOk(SubProblem(P, c), Restrict(x, c), cov, a)
  {
    var di, y, Q := c.duties[a], Restrict(x, c), SubProblem(P, c);
    DutySeen(P, c, x, a);
    assert HasEligible(P, di) <==> HasEligible(Q, a) by {
      if HasEligible(Q, a) {
        var b: nat :| b < |Q.soldiers| && Eligible(Q, a, b);
        assert Eligible(P, di, c.soldiers[b]);
      }
    }
    if forall si: nat, sj: nat :: (di, si) in x && (di, sj) in x ==> si == sj {
      forall b: nat, d: nat | (a, b) in y && (a, d) in y ensures b == d {
        IncreasingInjective(c.soldiers, b, d);
      }
    }
  }

  lemma MatchAgrees(P: Problem, c: Component, a: nat, b: nat, node: Id)
    requires Closed(P, c) && a < |c.duties| && b < |c.soldiers|
    ensures Matches(SubProblem(P, c), a, node, b) <==> Matches(P, c.duties[a], node, c.soldiers[b])
  {
  }

  lemma HasMatchAgrees(P: Problem, c: Component, a: nat, node: Id)
    requires Closed(P, c) && a < |c.duties|
    ensures HasMatch(P, c.duties[a], node) <==> HasMatch(SubProblem(P, c), a, node)
  {
    var di, Q := c.duties[a], SubProblem(P, c);
    DutySeen(P, c, {}, a);
    if HasMatch(P, di, node) {
      var si: nat :| si < |P.soldiers| && Matches(P, di, node, si);
      var b: nat :| b < |c.soldiers| && c.soldiers[b] == si && Eligible(Q, a, b);
      MatchAgrees(P, c, a, b, node);
      assert Matches(Q, a, node, b);
    }
    if HasMatch(Q, a, node) {
      var b: nat :| b < |Q.soldiers| && Matches(Q, a, node, b);
      MatchAgrees(P, c, a, b, node);
      assert Matches(P, di, node, c.soldiers[b]);
    }
  }

  lemma QuotaCountAgrees(P: Problem, c: Component, x: Point, a: nat, node: Id)
    requires Closed(P, c) && OverVariables(P, x) && a < |c.duties|
    ensures QuotaCount(P, x, c.duties[a], node) == QuotaCount(SubProblem(P, c), Restrict(x, c), a, node)
  {
    var di, y, Q := c.duties[a], Restrict(x, c), SubProblem(P, c);
    assert di in c.duties;
    var f := Bits((si: nat) => (di, si) in x && Matches(P, di, node, si));
    var g := Bits((si: nat) => (a, si) in y && Matches(Q, a, node, si));
    forall si: nat | si < |P.soldiers| && si !in c.soldiers ensures f(si) == 0 {
    }
    SumOnSupport(|P.soldiers|, c.soldiers, f);
    SumOverPositions(c.soldiers, f);
    forall b: nat | b < |c.soldiers| ensures f(c.soldiers[b]) == g(b) {
      RestrictMembership(x, c, a, b);
      MatchAgrees(P, c, a, b, node);
    }
    SumExt(|c.soldiers|, (k: nat) => if k < |c.soldiers| then f(c.soldiers[k]) else 0, g);
  }

  lemma DutyAgrees(P: Problem, c: Component, x: Point, cov: Coverage, a: nat)
    requires Closed(P, c) && OverVariables(P, x) && a < |c.duties|
    ensures DutyOk(P, x, cov, c.duties[a]) <==> DutyOk(SubProblem(P, c), Restrict(x, c), cov, a)
  {
    var di, y, Q := c.duties[a], Restrict(x, c), SubProblem(P, c);
    CoverageAgrees(P, c, x, cov, a);
    forall q | q in P.duties[di].nodeQuotas
      ensures HasMatch(P, di, q.0) <==> HasMatch(Q, a, q.0)
      ensures QuotaCount(P, x, di, q.0) == QuotaCount(Q, y, a, q.0)
    {
      HasMatchAgrees(P, c, a, q.0);
      QuotaCountAgrees(P, c, x, a, q.0);
    }
  }

  // ----- soldier constraints -----

  lemma OverlapAgrees(P: Problem, c: Component, x: Point, b: nat)
    requires Closed(P, c) && OverVariables(P, x) && b < |c.soldiers|
    ensures NoOverlapOk(P, x, c.soldiers[b]) <==> NoOverlapOk(SubProblem(P, c), Restrict(x, c), b)
  {
    var si, y, Q := c.soldiers[b], Restrict(x, c), SubProblem(P, c);
    SoldierSeen(P, c, x, b);
    if NoOverlapOk(P, x, si) {
      forall a: nat, d: nat | a < d < |Q.duties| && (a, b) in y && (d, b) in y
        ensures DutyDays(Q.duties[a]) !! DutyDays(Q.duties[d])
      {
        IncreasingInjective(c.duties, a, d);
      }
    }
    if NoOverlapOk(Q, y, b) {
      forall di: nat, dj: nat | di < dj < |P.duties| && (di, si) in x && (dj, si) in x
        ensures DutyDays(P.duties[di]) !! DutyDays(P.duties[dj])
      {
        var a: nat :| a < |c.duties| && c.duties[a] == di && (a, b) in y;
        var d: nat :| d < |c.duties| && c.duties[d] == dj && (d, b) in y;
        IncreasingInjective(c.duties, a, d);
      }
      forall di: nat | di < |P.duties| && (di, si) in x
        ensures DutyDays(P.duties[di]) !! BookedDays(P.existing, P.soldiers[si].id, false)
      {
        var a: nat :| a < |c.duties| && c.duties[a] == di && (a, b) in y;
      }
    }
  }

  lemma ClashAgrees(P: Problem, c: Component, a: nat, d: nat)
    requires Closed(P, c) && a < |c.duties| && d < |c.duties|
    ensures RestClash(SubProblem(P, c), a, d) <==> RestClash(P, c.duties[a], c.duties[d])
  {
    IncreasingInjective(c.duties, a, d);
  }

  lemma RestAgrees(P: Problem, c: Component, x: Point, b: nat)
    requires Closed(P, c) && OverVariables(P, x) && b < |c.soldiers|
    ensures RestOk(P, x, c.soldiers[b]) <==> RestOk(SubProblem(P, c), Restrict(x, c), b)
  {
    var si, y, Q := c.soldiers[b], Restrict(x, c), SubProblem(P, c);
    SoldierSeen(P, c, x, b);
    if RestOk(P, x, si) {
      forall a: nat, d: nat | a < |Q.duties| && d < |Q.duties| && (a, b) in y && (d, b) in y
        ensures !RestClash(Q, a, d)
      {
        ClashAgrees(P, c, a, d);
      }
    }
    if RestOk(Q, y, b) {
      forall e, di: nat | e in P.existing && di < |P.duties| && (di, si) in x
        ensures !ClashesWithBooking(e, P.soldiers[si].id, P.duties[di])
      {
        var a: nat :| a < |c.duties| && c.duties[a] == di && (a, b) in y;
        assert !ClashesWithBooking(e, Q.soldiers[b].id, Q.duties[a]);
      }
      forall di: nat, dj: nat | di < |P.duties| && dj < |P.duties| && (di, si) in x && (dj, si) in x
        ensures !RestClash(P, di, dj)
      {
        var a: nat :| a < |c.duties| && c.duties[a] == di && (a, b) in y;
        var d: nat :| d < |c.duties| && c.duties[d] == dj && (d, b) in y;
        ClashAgrees(P, c, a, d);
      }
    }
  }

  lemma NewDaysAgree(P: Problem, c: Component, x: Point, b: nat, ws: int, width: nat, realOnly: bool)
    requires Closed(P, c) && OverVariables(P, x) && b < |c.soldiers|
    ensures NewDays(P, x, c.soldiers[b], ws, width, realOnly)
            == NewDays(SubProblem(P, c), Restrict(x, c), b, ws, width, realOnly)
  {
    var si, y, Q := c.soldiers[b], Restrict(x, c), SubProblem(P, c);
    assert si in c.soldiers;
    var f := Contribution(P, x, si, ws, width, realOnly);
    var g := Contribution(Q, y, b, ws, width, realOnly);
    forall di: nat | di < |P.duties| && di !in c.duties ensures f(di) == 0 {
    }
    SumOnSupport(|P.duties|, c.duties, f);
    SumOverPositions(c.duties, f);
    forall a: nat | a < |c.duties| ensures f(c.duties[a]) == g(a) {
      RestrictMembership(x, c, a, b);
    }
    SumExt(|c.duties|, (k: nat) => if k < |c.duties| then f(c.duties[k]) else 0, g);
  }

  lemma DensityAgrees(P: Problem, c: Component, x: Point, b: nat)
    requires Closed(P, c) && OverVariables(P, x) && b < |c.soldiers|
    ensures DensityOk(P, x, c.soldiers[b]) <==> DensityOk(SubProblem(P, c), Restrict(x, c), b)
  {
    var si, y, Q := c.soldiers[b], Restrict(x, c), SubProblem(P, c);
    forall ws: int, width: nat, realOnly: bool, cap: int
      ensures WindowFits(P, x, si, ws, width, realOnly, cap) <==> WindowFits(Q, y, b, ws, width, realOnly, cap)
    {
      NewDaysAgree(P, c, x, b, ws, width, realOnly);
    }
  }

  lemma SoldierAgrees(P: Problem, c: Component, x: Point, b: nat)
    requires Closed(P, c) && OverVariables(P, x) && b < |c.soldiers|
    ensures SoldierOk(P, x, c.soldiers[b]) <==> SoldierOk(SubProblem(P, c), Restrict(x, c), b)
  {
    OverlapAgrees(P, c, x, b);
    RestAgrees(P, c, x, b);
    DensityAgrees(P, c, x, b);
  }

  /** A soldier who takes nothing breaks nothing. */
  lemma IdleSoldierOk(P: Problem, x: Point, si: nat)
    requires si < |P.soldiers|
    requires forall di: nat :: (di, si) !in x
    ensures SoldierOk(P, x, si)
  {
    forall ws: int, width: nat, realOnly: bool, cap: int ensures WindowFits(P, x, si, ws, width, realOnly, cap) {
      SumZero(|P.duties|, Contribution(P, x, si, ws, width, realOnly));
    }
  }

  // ----- the theorem -----

  /** The component's own model, built from its own duties and soldiers, accepts its part of the point. */
  ghost predicate ComponentSat(P: Problem, c: Component, x: Point, cov: Coverage)
    requires Closed(P, c)
  {
    HardSat(SubProblem(P, c), Restrict(x, c), cov)
  }

  ghost predicate EachComponentSat(P: Problem, comps: seq<Component>, x: Point, cov: Coverage)
    requires forall i: nat | i < |comps| :: Closed(P, comps[i])
  {
    forall i: nat | i < |comps| :: ComponentSat(P, comps[i], x, cov)
  }

  lemma WholeGivesParts(P: Problem, c: Component, x: Point, cov: Coverage)
    requires Closed(P, c) && HardSat(P, x, cov)
    ensures HardSat(SubProblem(P, c), Restrict(x, c), cov)
  {
    RestrictOverVariables(P, c, x);
    forall a: nat | a < |c.duties| ensures DutyOk(SubProblem(P, c), Restrict(x, c), cov, a) {
      DutyAgrees(P, c, x, cov, a);
    }
    forall b: nat | b < |c.soldiers| ensures SoldierOk(SubProblem(P, c), Restrict(x, c), b) {
      SoldierAgrees(P, c, x, b);
    }
  }

  lemma PartsGiveWhole(P: Problem, es: Edges, comps: seq<Component>, x: Point, cov: Coverage)
    requires IsDecomposition(|P.duties|, |P.soldiers|, es, comps) && OverVariables(P, x)
    requires forall i: nat | i < |comps| :: Closed(P, comps[i])
    requires EachComponentSat(P, comps, x, cov)
    ensures HardSat(P, x, cov)
  {
    forall di: nat | di < |P.duties| ensures DutyOk(P, x, cov, di) {
      assert InSome(comps, di);
      var i: nat :| i < |comps| && di in comps[i].duties;
      var a: nat :| a < |comps[i].duties| && comps[i].duties[a] == di;
      assert ComponentSat(P, comps[i], x, cov);
      DutyAgrees(P, comps[i], x, cov, a);
    }
    forall si: nat | si < |P.soldiers| ensures SoldierOk(P, x, si) {
      if exists di: nat :: (di, si) in x {
        var di: nat :| (di, si) in x;
        assert InSome(comps, di);
        var i: nat :| i < |comps| && di in comps[i].duties;
        assert si in comps[i].soldiers;
        var b: nat :| b < |comps[i].soldiers| && comps[i].soldiers[b] == si;
        assert ComponentSat(P, comps[i], x, cov);
        SoldierAgrees(P, comps[i], x, b);
      } else {
        IdleSoldierOk(P, x, si);
      }
    }
  }

  /** Decomposition is exact. */
  lemma DecompositionExact(P: Problem, es: Edges, comps: seq<Component>, x: Point, cov: Coverage)
    requires IsEligibilityGraph(P, es)
    requires IsDecomposition(|P.duties|, |P.soldiers|, es, comps) && OverVariables(P, x)
    ensures forall i: nat | i < |comps| :: Closed(P, comps[i])
    ensures HardSat(P, x, cov) <==> EachComponentSat(P, comps, x, cov)
  {
    forall i: nat | i < |comps| ensures Closed(P, comps[i]) {
      ComponentsClosed(P, es, comps, i);
    }
    if HardSat(P, x, cov) {
      forall i: nat | i < |comps| ensures ComponentSat(P, comps[i], x, cov) {
        WholeGivesParts(P, comps[i], x, cov);
      }
    }
    if EachComponentSat(P, comps, x, cov) {
      PartsGiveWhole(P, es, comps, x, cov);
    }
  }

  /** Every duty lies in one component; no eligible pair crosses; a manned component can man each duty. */
  ghost predicate Splits(P: Problem, comps: seq<Component>) {
    && (forall i: nat | i < |comps| :: Closed(P, comps[i]))
    && (forall di: nat | di < |P.duties| :: InSome(comps, di))
    && (forall i: nat, j: nat, di: nat |
          i < |comps| && j < |comps| && di in comps[i].duties && di in comps[j].duties :: i == j)
    && (forall i: nat, di: nat | i < |comps| && di in comps[i].duties && comps[i].soldiers != [] ::
          HasEligible(P, di))
  }

  lemma DecompositionSplits(P: Problem, es: Edges, comps: seq<Component>)
    requires IsEligibilityGraph(P, es)
    requires IsDecomposition(|P.duties|, |P.soldiers|, es, comps)
    ensures Splits(P, comps)
  {
    forall i: nat | i < |comps| ensures Closed(P, comps[i]) {
      ComponentsClosed(P, es, comps, i);
    }
    forall i: nat, di: nat | i < |comps| && di in comps[i].duties && comps[i].soldiers != []
      ensures HasEligible(P, di)
    {
      EveryDutyHasSomeone(P, es, comps, i, di);
    }
    forall i: nat, j: nat, di: nat |
      i < |comps| && j < |comps| && di in comps[i].duties && di in comps[j].duties
      ensures i == j
    {
      LinkedSelf(es, di);
    }
  }

  /** The decomposition step of a run, with what it guarantees about the run. */
  method Decompose(P: Problem) returns (comps: seq<Component>)
    ensures Splits(P, comps)
    ensures forall x: Point, cov: Coverage | OverVariables(P, x) ::
      HardSat(P, x, cov) <==> EachComponentSat(P, comps, x, cov)
  {
    var pairs := EligiblePairs(P);
    comps := ConnectedComponents(|P.duties|, |P.soldiers|, pairs);
    ghost var es := Graph(|P.duties|, pairs);
    GraphIsEligibility(P, pairs, es);
    DecompositionSplits(P, es, comps);
    forall x: Point, cov: Coverage | OverVariables(P, x)
      ensures HardSat(P, x, cov) <==> EachComponentSat(P, comps, x, cov)
    {
      DecompositionExact(P, es, comps, x, cov);
    }
  }

  ghost predicate AreEligiblePairs(P: Problem, pairs: seq<(nat, nat)>) {
    forall di: nat, si: nat :: (di, si) in pairs <==> Eligible(P, di, si)
  }

  lemma PairIsEdge(P: Problem, pairs: seq<(nat, nat)>, di: nat, si: nat)
    requires AreEligiblePairs(P, pairs)
    ensures Eligible(P, di, si) <==> (di, |P.duties| + si) in Graph(|P.duties|, pairs)
  {
    GraphEdge(|P.duties|, pairs, di, |P.duties| + si);
  }

  lemma EdgeIsPair(P: Problem, pairs: seq<(nat, nat)>, di: nat, w: nat)
    requires AreEligiblePairs(P, pairs)
    requires (di, w) in Graph(|P.duties|, pairs)
    ensures di < |P.duties| <= w
  {
    GraphEdge(|P.duties|, pairs, di, w);
    assert Eligible(P, di, w - |P.duties|);
  }

  lemma GraphIsEligibility(P: Problem, pairs: seq<(nat, nat)>, es: Edges)
    requires AreEligiblePairs(P, pairs) && es == Graph(|P.duties|, pairs)
    ensures IsEligibilityGraph(P, es)
  {
    forall di: nat, si: nat ensures Eligible(P, di, si) <==> (di, |P.duties| + si) in es {
      PairIsEdge(P, pairs, di, si);
    }
    forall di: nat, w: nat | (di, w) in es ensures di < |P.duties| <= w {
      EdgeIsPair(P, pairs, di, w);
    }
  }
}
