/**
 Carrying one batch's choices forward: the bookings they become, and what a choice that meets
 the hard constraints does to a soldier's booked days and rolling windows.
 */
module Carry {
  import opened Domain
  import opened Sums
  import opened Sorting
  import opened HardModel

  /** The fixed booking that an assignment becomes; it carries no rest requirement. */
  function BookingOf(soldier: Id, d: Duty): Existing {
    Existing(soldier, d.start, d.end, d.isReserve, 0, NoRestEnd)
  }

  ghost predicate Within(P: Problem, picks: seq<(nat, nat)>) {
    forall i | 0 <= i < |picks| :: picks[i].0 < |P.duties| && picks[i].1 < |P.soldiers|
  }

  function Bookings(P: Problem, picks: seq<(nat, nat)>): (r: seq<Existing>)
    requires Within(P, picks)
    ensures |r| == |picks|
    ensures forall i | 0 <= i < |r| :: r[i] == BookingOf(P.soldiers[picks[i].1].id, P.duties[picks[i].0])
  {
    seq(|picks|, i requires 0 <= i < |picks| => BookingOf(P.soldiers[picks[i].1].id, P.duties[picks[i].0]))
  }

  /** Booked days of a soldier inside [ws, ws + width). */
  function WindowLoad(es: seq<Existing>, soldier: Id, realOnly: bool, ws: int, width: nat): nat {
    |Between(BookedDays(es, soldier, realOnly), ws, ws + width - 1)|
  }

  // ----- the chosen pairs of a point, in the order of the variables -----

  function Row(x: Point, a: nat, m: nat): seq<(nat, nat)> {
    PairUp(a, Filter(m, (b: nat) => (a, b) in x))
  }

  function PairUp(a: nat, bs: seq<nat>): (r: seq<(nat, nat)>)
    ensures |r| == |bs| && forall i | 0 <= i < |r| :: r[i] == (a, bs[i])
  {
    seq(|bs|, i requires 0 <= i < |bs| => (a, bs[i]))
  }

  /** The pairs chosen in the first n rows. */
  function Rows(x: Point, n: nat, m: nat): seq<(nat, nat)> {
    if n == 0 then [] else Rows(x, n - 1, m) + Row(x, n - 1, m)
  }

  /** At most one soldier per duty. */
  ghost predicate OnePerRow(x: Point) {
    forall a: nat, b: nat, d: nat :: (a, b) in x && (a, d) in x ==> b == d
  }

  lemma RowShape(x: Point, a: nat, m: nat)
    requires OnePerRow(x)
    ensures Row(x, a, m) == [] || exists b: nat :: b < m && (a, b) in x && Row(x, a, m) == [(a, b)]
    ensures Row(x, a, m) == [] ==> forall b: nat | b < m :: (a, b) !in x
  {
    var bs := Filter(m, (b: nat) => (a, b) in x);
    forall b: nat | b < m && (a, b) in x ensures b in bs {
    }
    if |bs| > 0 {
      var k := |bs| - 1;
      assert bs[0] in bs && bs[k] in bs;
      assert Row(x, a, m) == [(a, bs[0])];
    }
  }

  /** The chosen pairs of the first n rows, each once, in row order. */
  ghost predicate ListsRows(x: Point, n: nat, m: nat, rows: seq<(nat, nat)>) {
    && (forall i | 0 <= i < |rows| :: rows[i] in x && rows[i].0 < n && rows[i].1 < m)
    && (forall i, j | 0 <= i < j < |rows| :: rows[i].0 < rows[j].0)
    && (forall a: nat, b: nat | a < n && b < m && (a, b) in x :: (a, b) in rows)
  }

  lemma EmptyRowListed(x: Point, n: nat, m: nat, rows: seq<(nat, nat)>)
    requires ListsRows(x, n, m, rows) && forall b: nat | b < m :: (n, b) !in x
    ensures ListsRows(x, n + 1, m, rows)
  {
    forall a: nat, b: nat | a < n + 1 && b < m && (a, b) in x ensures (a, b) in rows {
      assert a != n;
    }
  }

  lemma OneRowListed(x: Point, n: nat, m: nat, rows: seq<(nat, nat)>, b: nat)
    requires OnePerRow(x) && ListsRows(x, n, m, rows) && b < m && (n, b) in x
    ensures ListsRows(x, n + 1, m, rows + [(n, b)])
  {
    var all := rows + [(n, b)];
    forall i | 0 <= i < |all| ensures all[i] in x && all[i].0 < n + 1 && all[i].1 < m {
      assert i < |rows| ==> all[i] == rows[i];
    }
    forall i, j | 0 <= i < j < |all| ensures all[i].0 < all[j].0 {
      assert all[i] == rows[i];
      assert j < |rows| ==> all[j] == rows[j];
    }
    forall a: nat, d: nat | a < n + 1 && d < m && (a, d) in x ensures (a, d) in all {
      if a == n {
        assert d == b;
        assert all[|rows|] == (a, d);
      } else {
        assert (a, d) in rows;
      }
    }
  }

  lemma {:induction false} RowsMembers(x: Point, n: nat, m: nat)
    requires OnePerRow(x)
    ensures ListsRows(x, n, m, Rows(x, n, m))
  {
    if n > 0 {
      RowsMembers(x, n - 1, m);
      RowShape(x, n - 1, m);
      var before, row := Rows(x, n - 1, m), Row(x, n - 1, m);
      if row == [] {
        assert before + row == before;
        EmptyRowListed(x, n - 1, m, before);
      } else {
        var b: nat :| b < m && (n - 1, b) in x && row == [(n - 1, b)];
        OneRowListed(x, n - 1, m, before, b);
      }
    }
  }

  // ----- growth of a window -----

  lemma BetweenDays(start: int, end: int, ws: int, width: nat, d: Duty)
    requires start == d.start && end == d.end
    ensures |Between(Days(start, end), ws, ws + width - 1)| == Overlap(d, ws, width)
  {
    var lo := if start > ws then start else ws;
    var hi := if end < ws + width then end else ws + width;
    assert Between(Days(start, end), ws, ws + width - 1) == Days(lo, hi);
  }

  lemma BetweenUnion(a: set<int>, b: set<int>, lo: int, hi: int)
    ensures |Between(a + b, lo, hi)| <= |Between(a, lo, hi)| + |Between(b, lo, hi)|
  {
    assert Between(a + b, lo, hi) == Between(a, lo, hi) + Between(b, lo, hi);
  }

  /** One more booking adds at most its overlap with the window, and nothing for others. */
  lemma BookingGrowth(es: seq<Existing>, soldier: Id, d: Duty, id: Id, realOnly: bool, ws: int, width: nat)
    ensures WindowLoad(es + [BookingOf(soldier, d)], id, realOnly, ws, width)
            <= WindowLoad(es, id, realOnly, ws, width)
               + (if soldier == id && !(realOnly && d.isReserve) then Overlap(d, ws, width) else 0)
  {
    var e := BookingOf(soldier, d);
    BookedDaysAppend(es, e, id, realOnly);
    if soldier == id && !(realOnly && d.isReserve) {
      BetweenUnion(BookedDays(es, id, realOnly), Days(d.start, d.end), ws, ws + width - 1);
      BetweenDays(d.start, d.end, ws, width, d);
    } else {
      assert BookedDays(es + [e], id, realOnly) == BookedDays(es, id, realOnly);
    }
  }

  ghost predicate DistinctSoldiers(P: Problem) {
    forall i, j | 0 <= i < j < |P.soldiers| :: P.soldiers[i].id != P.soldiers[j].id
  }

  lemma BookingsSnoc(P: Problem, es: seq<Existing>, before: seq<(nat, nat)>, pick: (nat, nat))
    requires Within(P, before + [pick])
    ensures Within(P, before) && pick.0 < |P.duties| && pick.1 < |P.soldiers|
    ensures es + Bookings(P, before + [pick])
            == es + Bookings(P, before) + [BookingOf(P.soldiers[pick.1].id, P.duties[pick.0])]
  {
    var all := before + [pick];
    assert all[|before|] == pick;
    forall i | 0 <= i < |before| ensures before[i] == all[i] {
    }
    assert Bookings(P, all) == Bookings(P, before) + [BookingOf(P.soldiers[pick.1].id, P.duties[pick.0])];
  }

  /** One more chosen pair adds at most what the model counted for its duty. */
  lemma PickGrowth(P: Problem, x: Point, before: seq<(nat, nat)>, a: nat, b: nat, si: nat, realOnly: bool, ws: int,
                   width: nat)
    requires OverVariables(P, x) && OnePerRow(x) && DistinctSoldiers(P)
    requires Within(P, before + [(a, b)]) && Within(P, before) && (a, b) in x && si < |P.soldiers|
    ensures WindowLoad(P.existing + Bookings(P, before + [(a, b)]), P.soldiers[si].id, realOnly, ws, width)
            <= WindowLoad(P.existing + Bookings(P, before), P.soldiers[si].id, realOnly, ws, width)
               + Contribution(P, x, si, ws, width, realOnly)(a)
  {
    BookingsSnoc(P, P.existing, before, (a, b));
    BookingGrowth(P.existing + Bookings(P, before), P.soldiers[b].id, P.duties[a], P.soldiers[si].id, realOnly, ws,
      width);
    SameSoldier(P, b, si);
    assert Eligible(P, a, b);
  }

  /** Booked days of a soldier in a window once the picks are booked too. */
  function LoadWith(P: Problem, picks: seq<(nat, nat)>, si: nat, realOnly: bool, ws: int, width: nat): nat
    requires Within(P, picks) && si < |P.soldiers|
  {
    WindowLoad(P.existing + Bookings(P, picks), P.soldiers[si].id, realOnly, ws, width)
  }

  lemma RowGrowth(P: Problem, x: Point, before: seq<(nat, nat)>, a: nat, si: nat, realOnly: bool, ws: int, width: nat)
    requires OverVariables(P, x) && OnePerRow(x) && DistinctSoldiers(P) && si < |P.soldiers|
    requires Within(P, before) && Within(P, before + Row(x, a, |P.soldiers|))
    ensures LoadWith(P, before + Row(x, a, |P.soldiers|), si, realOnly, ws, width)
            <= LoadWith(P, before, si, realOnly, ws, width) + Contribution(P, x, si, ws, width, realOnly)(a)
  {
    RowShape(x, a, |P.soldiers|);
    var row := Row(x, a, |P.soldiers|);
    if row == [] {
      assert before + row == before;
    } else {
      var b: nat :| b < |P.soldiers| && (a, b) in x && row == [(a, b)];
      PickGrowth(P, x, before, a, b, si, realOnly, ws, width);
    }
  }

  /** The soldier's load once the first k rows are booked. */
  ghost function RowsLoad(P: Problem, x: Point, k: nat, si: nat, realOnly: bool, ws: int, width: nat): int
    requires si < |P.soldiers|
  {
    if Within(P, Rows(x, k, |P.soldiers|)) then LoadWith(P, Rows(x, k, |P.soldiers|), si, realOnly, ws, width) else 0
  }

  lemma OneMoreRow(P: Problem, x: Point, a: nat, si: nat, realOnly: bool, ws: int, width: nat, f: nat -> int)
    requires OverVariables(P, x) && OnePerRow(x) && DistinctSoldiers(P)
    requires a < |P.duties| && si < |P.soldiers| && f == Contribution(P, x, si, ws, width, realOnly)
    ensures RowsLoad(P, x, a + 1, si, realOnly, ws, width) <= RowsLoad(P, x, a, si, realOnly, ws, width) + f(a)
  {
    RowsWithin(P, x, a);
    RowsWithin(P, x, a + 1);
    RowGrowth(P, x, Rows(x, a, |P.soldiers|), a, si, realOnly, ws, width);
  }

  /** The load after the first n rows is at most what was booked before and what the model counted. */
  lemma {:induction false} LoadAtMostTally(P: Problem, x: Point, si: nat, realOnly: bool, ws: int, width: nat,
                                           f: nat -> int, n: nat)
    requires OverVariables(P, x) && OnePerRow(x) && DistinctSoldiers(P)
    requires si < |P.soldiers| && f == Contribution(P, x, si, ws, width, realOnly) && n <= |P.duties|
    ensures RowsLoad(P, x, n, si, realOnly, ws, width) <= RowsLoad(P, x, 0, si, realOnly, ws, width) + Sum(n, f)
  {
    if n > 0 {
      LoadAtMostTally(P, x, si, realOnly, ws, width, f, n - 1);
      OneMoreRow(P, x, n - 1, si, realOnly, ws, width, f);
    }
  }

  lemma NoRowsLoad(P: Problem, x: Point, si: nat, realOnly: bool, ws: int, width: nat)
    requires si < |P.soldiers|
    ensures RowsLoad(P, x, 0, si, realOnly, ws, width) == WindowLoad(P.existing, P.soldiers[si].id, realOnly, ws, width)
  {
    assert Rows(x, 0, |P.soldiers|) == [];
    assert P.existing + Bookings(P, []) == P.existing;
  }

  lemma BatchGrowth(P: Problem, x: Point, si: nat, realOnly: bool, ws: int, width: nat)
    requires OverVariables(P, x) && OnePerRow(x) && DistinctSoldiers(P)
    requires si < |P.soldiers| && Within(P, Rows(x, |P.duties|, |P.soldiers|))
    ensures LoadWith(P, Rows(x, |P.duties|, |P.soldiers|), si, realOnly, ws, width)
            <= OldDays(P, si, ws, width, realOnly) + NewDays(P, x, si, ws, width, realOnly)
  {
    var f := Contribution(P, x, si, ws, width, realOnly);
    LoadAtMostTally(P, x, si, realOnly, ws, width, f, |P.duties|);
    NoRowsLoad(P, x, si, realOnly, ws, width);
  }

  lemma RowsWithin(P: Problem, x: Point, n: nat)
    requires OnePerRow(x) && n <= |P.duties|
    ensures Within(P, Rows(x, n, |P.soldiers|))
  {
    RowsMembers(x, n, |P.soldiers|);
  }

  lemma SameSoldier(P: Problem, b: nat, si: nat)
    requires DistinctSoldiers(P) && b < |P.soldiers| && si < |P.soldiers|
    ensures P.soldiers[b].id == P.soldiers[si].id <==> b == si
  {
  }

  /** Choices that meet the density constraint leave no window above the cap that was not above it before. */
  lemma WindowAfterBatch(P: Problem, x: Point, cov: Coverage, si: nat, ws: int)
    requires HardSat(P, x, cov) && DistinctSoldiers(P) && si < |P.soldiers|
    requires Within(P, Rows(x, |P.duties|, |P.soldiers|))
    ensures var after := P.existing + Bookings(P, Rows(x, |P.duties|, |P.soldiers|));
            var id := P.soldiers[si].id;
            && (|| WindowLoad(after, id, true, ws, P.caps.Wt) <= WindowLoad(P.existing, id, true, ws, P.caps.Wt)
                || WindowLoad(after, id, true, ws, P.caps.Wt) <= P.caps.T)
            && (|| WindowLoad(after, id, false, ws, P.caps.Wr) <= WindowLoad(P.existing, id, false, ws, P.caps.Wr)
                || WindowLoad(after, id, false, ws, P.caps.Wr) <= P.caps.R)
  {
    PointIsOnePerRow(P, x, cov);
    BatchGrowth(P, x, si, true, ws, P.caps.Wt);
    BatchGrowth(P, x, si, false, ws, P.caps.Wr);
    assert SoldierOk(P, x, si);
    assert WindowFits(P, x, si, ws, P.caps.Wt, true, P.caps.T);
    assert WindowFits(P, x, si, ws, P.caps.Wr, false, P.caps.R);
  }

  lemma PointIsOnePerRow(P: Problem, x: Point, cov: Coverage)
    requires HardSat(P, x, cov)
    ensures OnePerRow(x)
  {
    forall a: nat, b: nat, d: nat | (a, b) in x && (a, d) in x ensures b == d {
      assert Eligible(P, a, b);
      assert DutyOk(P, x, cov, a);
    }
  }

  /** A soldier outside the problem is not touched by it. */
  lemma {:induction false} BookingsOfOthers(P: Problem, es: seq<Existing>, picks: seq<(nat, nat)>, id: Id,
                                            realOnly: bool)
    requires Within(P, picks)
    requires forall i | 0 <= i < |picks| :: P.soldiers[picks[i].1].id != id
    ensures BookedDays(es + Bookings(P, picks), id, realOnly) == BookedDays(es, id, realOnly)
  {
    if picks == [] {
      assert es + Bookings(P, picks) == es;
    } else {
      var before, last := picks[..|picks| - 1], picks[|picks| - 1];
      assert picks == before + [last];
      BookingsSnoc(P, es, before, last);
      BookingsOfOthers(P, es, before, id, realOnly);
      BookedDaysAppend(es + Bookings(P, before), BookingOf(P.soldiers[last.1].id, P.duties[last.0]), id, realOnly);
    }
  }
}
