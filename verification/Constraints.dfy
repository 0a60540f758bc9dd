/** Linear constraints over 0/1 decision variables, and the value of a sum of variables. */
module Constraints {
  import opened Sums
  import opened HardModel

  /** weight times the decision variable of (duty, soldier). */
  datatype Term = Term(v: (nat, nat), weight: int)

  /** Linear constraints; `covered` variables are named by their duty position. */
  datatype Constraint =
    | AtMost(terms: seq<Term>, bound: int)
    | Exactly(terms: seq<Term>, bound: int)
    | DefinesCovered(terms: seq<Term>, duty: nat)
    | ExactlyIfCovered(terms: seq<Term>, bound: int, duty: nat)

  function Value(ts: seq<Term>, x: Point): int {
    if ts == [] then 0 else (if ts[0].v in x then ts[0].weight else 0) + Value(ts[1..], x)
  }

  predicate Holds(c: Constraint, x: Point, covered: set<nat>) {
    match c
    case AtMost(ts, b) => Value(ts, x) <= b
    case Exactly(ts, b) => Value(ts, x) == b
    case DefinesCovered(ts, di) => Value(ts, x) == if di in covered then 1 else 0
    case ExactlyIfCovered(ts, b, di) => di in covered ==> Value(ts, x) == b
  }

  predicate AllHold(cs: seq<Constraint>, x: Point, covered: set<nat>) {
    forall c | c in cs :: Holds(c, x, covered)
  }

  lemma AllHoldAppend(cs: seq<Constraint>, ds: seq<Constraint>, x: Point, covered: set<nat>)
    ensures AllHold(cs + ds, x, covered) <==> AllHold(cs, x, covered) && AllHold(ds, x, covered)
  {
    if AllHold(cs + ds, x, covered) {
      forall c | c in cs ensures Holds(c, x, covered) { assert c in cs + ds; }
      forall c | c in ds ensures Holds(c, x, covered) { assert c in cs + ds; }
    }
  }

  lemma AllHoldSingle(c: Constraint, x: Point, covered: set<nat>)
    ensures AllHold([c], x, covered) <==> Holds(c, x, covered)
  {
    assert c in [c];
  }

  lemma {:induction false} ValueAppend(a: seq<Term>, b: seq<Term>, x: Point)
    ensures Value(a + b, x) == Value(a, x) + Value(b, x)
  {
    if a == [] {
      assert a + b == b;
    } else {
      assert (a + b)[1..] == a[1..] + b;
      ValueAppend(a[1..], b, x);
    }
  }

  // ----- sums of decision variables -----

  /** The variables of one duty over the listed soldiers. */
  function DutyTerms(di: nat, sis: seq<nat>): seq<Term> {
    if sis == [] then [] else [Term((di, sis[0]), 1)] + DutyTerms(di, sis[1..])
  }

  /** The variables of one soldier over the listed duties. */
  function SoldierTerms(dis: seq<nat>, si: nat): seq<Term> {
    if dis == [] then [] else [Term((dis[0], si), 1)] + SoldierTerms(dis[1..], si)
  }

  lemma {:induction false} DutyTermsValue(di: nat, sis: seq<nat>, x: Point)
    ensures Value(DutyTerms(di, sis), x) == SumOver(sis, Bits((si: nat) => (di, si) in x))
  {
    if sis != [] {
      DutyTermsValue(di, sis[1..], x);
    }
  }

  lemma {:induction false} SoldierTermsValue(dis: seq<nat>, si: nat, x: Point)
    ensures Value(SoldierTerms(dis, si), x) == SumOver(dis, Bits((di: nat) => (di, si) in x))
  {
    if dis != [] {
      SoldierTermsValue(dis[1..], si, x);
    }
  }

  /** Soldiers below n that satisfy p, summed for a duty: a count over all soldiers. */
  lemma DutyTermsCount(di: nat, n: nat, p: nat -> bool, x: Point)
    ensures Value(DutyTerms(di, Filter(n, p)), x) == Sum(n, Bits((si: nat) => (di, si) in x && p(si)))
  {
    var sis := Filter(n, p);
    var f, g := Bits((si: nat) => (di, si) in x), Bits((si: nat) => (di, si) in x && p(si));
    DutyTermsValue(di, sis, x);
    SumOverExt(sis, f, g);
    SumOnSupport(n, sis, g);
  }

  lemma SoldierTermsCount(si: nat, n: nat, p: nat -> bool, x: Point)
    ensures Value(SoldierTerms(Filter(n, p), si), x) == Sum(n, Bits((di: nat) => (di, si) in x && p(di)))
  {
    var dis := Filter(n, p);
    var f, g := Bits((di: nat) => (di, si) in x), Bits((di: nat) => (di, si) in x && p(di));
    SoldierTermsValue(dis, si, x);
    SumOverExt(dis, f, g);
    SumOnSupport(n, dis, g);
  }

  function EligibleSoldiers(P: Problem, di: nat): seq<nat> {
    Filter(|P.soldiers|, (si: nat) => Eligible(P, di, si))
  }

  function EligibleDuties(P: Problem, si: nat): seq<nat> {
    Filter(|P.duties|, (di: nat) => Eligible(P, di, si))
  }
}
