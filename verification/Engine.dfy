/**
 One batch: hard coverage with graduated relaxation, then soft coverage. The solver itself is
 an oracle that may answer anything, except that a point it returns meets the constraints it
 was given.
 */
module Engine {
  import opened Sums
  import opened HardModel
  import opened Relaxation
  import Decomposition

  datatype Answer = Found(x: Point) | Infeasible | Unknown

  /** The result of one batch. */
  datatype BatchOutcome = BatchCancelled | NoSolution | Solved(x: Point)

  /** The problem under the caps of a rung. */
  function AtRung(P: Problem, g: Rung): Problem {
    P.(caps := P.caps.(R := g.R, T := g.T))
  }

  function BaseRung(P: Problem): Rung {
    Level(P.caps.R, P.caps.T)
  }

  class Solver {
    /** solve(call number, problem, coverage, least number of duties to cover) */
    const solve: (nat, Problem, Coverage, nat) -> Answer
    /** Whether the cancel event is set when it is looked at for the n-th time. */
    const cancelSet: nat -> bool
    var clock: nat

    ghost predicate Sound() {
      forall t: nat, P: Problem, cov: Coverage, least: nat | solve(t, P, cov, least).Found? ::
        HardSat(P, solve(t, P, cov, least).x, cov) && |solve(t, P, cov, least).x| >= least
    }

    constructor (solve: (nat, Problem, Coverage, nat) -> Answer, cancelSet: nat -> bool)
      ensures this.solve == solve && this.cancelSet == cancelSet
    {
      this.solve, this.cancelSet, this.clock := solve, cancelSet, 0;
    }

    method Solve(P: Problem, cov: Coverage, least: nat) returns (a: Answer)
      requires Sound()
      modifies this
      ensures a == solve(old(clock), P, cov, least) && clock == old(clock) + 1
      ensures a.Found? ==> HardSat(P, a.x, cov) && |a.x| >= least
    {
      a := solve(clock, P, cov, least);
      clock := clock + 1;
    }

    method IsCancelled() returns (b: bool)
      modifies this
      ensures b == cancelSet(old(clock)) && clock == old(clock) + 1
    {
      b := cancelSet(clock);
      clock := clock + 1;
    }

    /** The cancel event was set at some time in [from, to). */
    ghost predicate CancelSeen(from: nat, to: nat) {
      exists t: nat :: from <= t < to && cancelSet(t)
    }

    // ----- what was asked and answered -----

    /** The answer to the attempt on rung k when it is made at time t. */
    function Reply(P: Problem, c: Ceilings, t: nat, k: nat): Answer {
      solve(t, AtRung(P, RungAfter(BaseRung(P), c, k)), Hard, 0)
    }

    /** That attempt found nothing, and not because of a cancellation. */
    predicate InVain(P: Problem, c: Ceilings, t: nat, k: nat) {
      Reply(P, c, t, k).Infeasible? || (Reply(P, c, t, k).Unknown? && !cancelSet(t + 1))
    }

    /** The rungs from the base up were tried at these times, the first n of them in vain. */
    ghost predicate Tried(P: Problem, c: Ceilings, asked: seq<nat>, n: nat) {
      && n <= |asked| && Increasing(asked)
      && forall k: nat | k < n :: InVain(P, c, asked[k], k)
    }

    /** The lowest rung that is not tried in vain gives this point. */
    ghost predicate HardAnswer(P: Problem, c: Ceilings, asked: seq<nat>, x: Point) {
      asked != [] && Tried(P, c, asked, |asked| - 1) && Reply(P, c, asked[|asked| - 1], |asked| - 1) == Found(x)
    }

    /** Every rung up to the ceilings was tried in vain. */
    ghost predicate HardExhausted(P: Problem, c: Ceilings, asked: seq<nat>) {
      |asked| == 1 + StepsLeft(BaseRung(P), c) && Tried(P, c, asked, |asked|)
    }

    /** The attempt on the last of these rungs ended without an answer, and the cancel event was set. */
    ghost predicate HardCancelled(P: Problem, c: Ceilings, asked: seq<nat>) {
      && asked != [] && Tried(P, c, asked, |asked| - 1)
      && Reply(P, c, asked[|asked| - 1], |asked| - 1).Unknown? && cancelSet(asked[|asked| - 1] + 1)
    }

    /** Stage one at time t, stage two after it; stage one's point stands when stage two has none. */
    ghost predicate SoftAnswer(P: Problem, t: nat, x: Point) {
      var first := solve(t, P, Soft, 0);
      && !cancelSet(t + 1)
      && if !first.Found? then x == {}
         else
           var second := solve(t + 2, P, Soft, |first.x|);
           !cancelSet(t + 3) && x == if second.Found? then second.x else first.x
    }

    ghost predicate SoftCancelled(P: Problem, t: nat) {
      cancelSet(t + 1) || (solve(t, P, Soft, 0).Found? && cancelSet(t + 3))
    }

    /** What the batch comes to: the hard answer on the lowest rung that has one, else the soft answer. */
    ghost predicate BatchAnswer(P: Problem, c: Ceilings, x: Point) {
      exists asked: seq<nat> ::
        HardAnswer(P, c, asked, x) || (HardExhausted(P, c, asked) && exists t: nat :: SoftAnswer(P, t, x))
    }

    lemma TriedMore(P: Problem, c: Ceilings, asked: seq<nat>, t: nat)
      requires Tried(P, c, asked, |asked|) && (asked != [] ==> asked[|asked| - 1] < t)
      ensures Tried(P, c, asked + [t], |asked|)
      ensures InVain(P, c, t, |asked|) ==> Tried(P, c, asked + [t], |asked| + 1)
    {
    }

    /** What one more attempt, on the rung after those tried in vain, means for the chain. */
    lemma AttemptDecides(P: Problem, c: Ceilings, asked: seq<nat>, t: nat, a: Answer, cancelled: bool)
      requires Tried(P, c, asked, |asked|) && (asked != [] ==> asked[|asked| - 1] < t)
      requires a == Reply(P, c, t, |asked|) && (cancelled <==> a.Unknown? && cancelSet(t + 1))
      ensures a.Found? ==> HardAnswer(P, c, asked + [t], a.x)
      ensures cancelled ==> HardCancelled(P, c, asked + [t])
      ensures !a.Found? && !cancelled ==> Tried(P, c, asked + [t], |asked| + 1)
    {
      TriedMore(P, c, asked, t);
    }

    /** One attempt under the given caps; an attempt without an answer may have been cancelled. */
    method Attempt(P: Problem, g: Rung) returns (a: Answer, cancelled: bool)
      requires Sound()
      modifies this
      ensures old(clock) < clock && a == solve(old(clock), AtRung(P, g), Hard, 0)
      ensures a.Found? ==> HardSat(AtRung(P, g), a.x, Hard)
      ensures cancelled <==> a.Unknown? && cancelSet(old(clock) + 1)
      ensures cancelled ==> old(clock) + 1 < clock
    {
      a := Solve(AtRung(P, g), Hard, 0);
      cancelled := false;
      if a.Unknown? {
        cancelled := IsCancelled();
      }
    }

    /**
     Hard coverage, retried one rung higher for as long as no point is found. The answer obeys
     the caps of the rung it was found on, and there are never more attempts than announced.
     */
    method RelaxationChain(P: Problem, c: Ceilings)
      returns (o: BatchOutcome, labels: seq<RelaxLabel>, attempts: nat, ghost asked: seq<nat>)
      requires Sound()
      modifies this
      ensures |asked| == attempts == |labels| + 1 <= 1 + StepsLeft(BaseRung(P), c)
      ensures old(clock) <= asked[0] && asked[|asked| - 1] < clock
      ensures Labelled(BaseRung(P), c, labels)
      ensures o.Solved? ==> HardSat(AtRung(P, RungAfter(BaseRung(P), c, |labels|)), o.x, Hard)
      ensures match o
              case Solved(x) => HardAnswer(P, c, asked, x)
              case NoSolution => HardExhausted(P, c, asked)
              case BatchCancelled => HardCancelled(P, c, asked) && asked[|asked| - 1] + 1 < clock
    {
      var current := new CurrentCaps(BaseRung(P), c);
      labels, attempts, asked := [], 0, [];
      ghost var total := StepsLeft(BaseRung(P), c);
      while true
        invariant Sound() && fresh(current) && current.ceilings == c
        invariant |asked| == attempts == |labels| <= total
        invariant current.Here() == RungAfter(BaseRung(P), c, |labels|)
        invariant old(clock) <= clock && (asked != [] ==> old(clock) <= asked[0] && asked[|asked| - 1] < clock)
        invariant Tried(P, c, asked, |asked|) && Labelled(BaseRung(P), c, labels)
        decreases total - |labels|
      {
        ghost var t := clock;
        var a, cancelled := Attempt(P, Level(current.R, current.T));
        AttemptDecides(P, c, asked, t, a, cancelled);
        attempts, asked := attempts + 1, asked + [t];
        if a.Found? {
          return Solved(a.x), labels, attempts, asked;
        }
        if cancelled {
          return BatchCancelled, labels, attempts, asked;
        }
        RungAfterSteps(BaseRung(P), c, |labels|);
        var name := current.RelaxStep();
        if name.Exhausted? {
          return NoSolution, labels, attempts, asked;
        }
        labels := labels + [name];
      }
    }

    /**
     Stage one covers as many duties as it can, stage two looks for a fairer point that covers
     no fewer, and stage one's point is kept when it finds none.
     */
    method SoftCoverage(P: Problem) returns (o: BatchOutcome)
      requires Sound()
      modifies this
      ensures old(clock) < clock
      ensures o != NoSolution
      ensures o.Solved? ==> HardSat(P, o.x, Soft) && SoftAnswer(P, old(clock), o.x)
      ensures o.Solved? && solve(old(clock), P, Soft, 0).Found? ==> |o.x| >= |solve(old(clock), P, Soft, 0).x|
      ensures o.BatchCancelled? ==> SoftCancelled(P, old(clock))
      ensures o.BatchCancelled? ==> CancelSeen(old(clock), clock)
    {
      ghost var t := clock;
      var a := Solve(P, Soft, 0);
      var cancelled := IsCancelled();
      if cancelled {
        assert t <= t + 1 < clock && cancelSet(t + 1);
        return BatchCancelled;
      }
      if !a.Found? {
        NothingIsSoft(P);
        return Solved({});
      }
      var b := Solve(P, Soft, |a.x|);
      cancelled := IsCancelled();
      if cancelled {
        assert t <= t + 3 < clock && cancelSet(t + 3);
        return BatchCancelled;
      }
      return Solved(if b.Found? then b.x else a.x);
    }

    /** Relaxation chain first; soft coverage at the base caps when the ceilings do not suffice. */
    method SolveBatch(P: Problem, c: Ceilings)
      returns (o: BatchOutcome, labels: seq<RelaxLabel>, ghost g: Rung, ghost cov: Coverage)
      requires Sound()
      modifies this
      ensures o != NoSolution && old(clock) < clock
      ensures o.Solved? ==> HardSat(AtRung(P, g), o.x, cov) && BatchAnswer(P, c, o.x)
      ensures g.R <= Max(P.caps.R, c.R) && g.T <= Max(P.caps.T, c.T)
      ensures o.BatchCancelled? ==> CancelSeen(old(clock), clock)
    {
      var attempts; ghost var asked;
      o, labels, attempts, asked := RelaxationChain(P, c);
      g, cov := RungAfter(BaseRung(P), c, |labels|), Hard;
      RungAfterSteps(BaseRung(P), c, |labels|);
      if o.NoSolution? {
        o := SoftCoverage(P);
        g, cov := BaseRung(P), Soft;
        assert AtRung(P, g) == P;
      }
    }
  }

  /** Leaving every duty open is a soft solution. */
  lemma NothingIsSoft(P: Problem)
    ensures HardSat(P, {}, Soft)
  {
    forall si: nat | si < |P.soldiers| ensures SoldierOk(P, {}, si) {
      Decomposition.IdleSoldierOk(P, {}, si);
    }
  }
}
