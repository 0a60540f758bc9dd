/**
 Swap requests before the consolidation and what each of them turns into. An identifier is a
 natural number in the order of the identifiers' text, an instant is an integer.
 */
module SwapRows {

  type Id = nat

  datatype Option<T> = None | Some(value: T)

  datatype Status = Open | PendingApproval | Applied | Rejected | Cancelled

  datatype Row = Row(
    id: Id,
    requester: Id,
    duty: Id,
    target: Option<Id>,
    covering: Option<Id>,
    coveringApproved: Option<bool>,
    offered: seq<Id>,
    status: Status,
    createdAt: int,
    updatedAt: int)

  datatype Source = Invited | Marketplace

  datatype Progress = Waiting | Accepted | AppliedSwap | CancelledSwap

  datatype Candidate = Candidate(
    request: Id,
    soldier: Id,
    source: Source,
    progress: Progress,
    offered: seq<Id>,
    approved: Option<bool>,
    createdAt: int,
    decidedAt: Option<int>)

  type Key = (Id, Id)

  function KeyOf(r: Row): Key {
    (r.requester, r.duty)
  }

  /** Still in progress, so subject to consolidation. */
  predicate Live(r: Row) {
    r.status.Open? || r.status.PendingApproval?
  }

  /** The soldier a row is about: who covers, else who was asked. */
  function Named(r: Row): Option<Id> {
    if r.covering.Some? then r.covering else r.target
  }

  ghost predicate DistinctIds(rows: seq<Row>) {
    forall i, j | 0 <= i < |rows| && 0 <= j < |rows| && rows[i].id == rows[j].id :: i == j
  }

  lemma SameIdSameRow(rows: seq<Row>, p: Row, q: Row)
    requires DistinctIds(rows) && p in rows && q in rows
    ensures p.id == q.id ==> p == q
  {
    var i, j :| 0 <= i < |rows| && 0 <= j < |rows| && rows[i] == p && rows[j] == q;
  }

  function Where(rows: seq<Row>, p: Row -> bool): (g: seq<Row>)
    ensures forall r :: r in g <==> r in rows && p(r)
  {
    if rows == [] then []
    else
      var last := rows[|rows| - 1];
      assert rows == rows[..|rows| - 1] + [last];
      Where(rows[..|rows| - 1], p) + if p(last) then [last] else []
  }

  lemma {:induction false} WhereDistinct(rows: seq<Row>, p: Row -> bool)
    ensures DistinctIds(rows) ==> DistinctIds(Where(rows, p))
  {
    if rows != [] && DistinctIds(rows) {
      var front, last := rows[..|rows| - 1], rows[|rows| - 1];
      WhereDistinct(front, p);
      forall r | r in Where(front, p) ensures r.id != last.id {
        var i :| 0 <= i < |front| && front[i] == r;
        assert rows[i] == r;
      }
    }
  }

  // ----- order -----

  /** Older first, then by identifier. */
  predicate Older(p: Row, q: Row) {
    p.createdAt < q.createdAt || (p.createdAt == q.createdAt && p.id < q.id)
  }

  /** Rows awaiting approval come before open ones. */
  predicate Before(p: Row, q: Row) {
    if p.status.PendingApproval? != q.status.PendingApproval? then p.status.PendingApproval? else Older(p, q)
  }

  /** The first row of a group in this order. */
  function First(rows: seq<Row>): (r: Row)
    requires rows != []
    ensures r in rows && forall q | q in rows :: !Before(q, r)
  {
    if |rows| == 1 then rows[0]
    else
      var rest := First(rows[1..]);
      assert rows == [rows[0]] + rows[1..];
      if Before(rest, rows[0]) then rest else rows[0]
  }

  lemma FirstUnique(rows: seq<Row>, r: Row)
    requires rows != [] && DistinctIds(rows) && r in rows && forall q | q in rows :: !Before(q, r)
    ensures r == First(rows)
  {
    SameIdSameRow(rows, r, First(rows));
  }

  function Oldest(rows: seq<Row>): (r: Row)
    requires rows != []
    ensures r in rows && forall q | q in rows :: !Older(q, r)
  {
    if |rows| == 1 then rows[0]
    else
      var rest := Oldest(rows[1..]);
      assert rows == [rows[0]] + rows[1..];
      if Older(rest, rows[0]) then rest else rows[0]
  }

  function Awaiting(rows: seq<Row>): (r: seq<Row>)
    ensures forall q :: q in r <==> q in rows && q.status.PendingApproval?
  {
    Where(rows, (q: Row) => q.status.PendingApproval?)
  }

  /** The row of a group that survives: the oldest awaiting approval, else the oldest. */
  function Survivor(rows: seq<Row>): (r: Row)
    requires rows != []
    ensures r in rows
    ensures r.status.PendingApproval? <==> exists q :: q in rows && q.status.PendingApproval?
    ensures forall q | q in rows :: !Before(q, r)
  {
    var awaiting := Awaiting(rows);
    if awaiting != [] then
      assert awaiting[0] in awaiting;
      Oldest(awaiting)
    else Oldest(rows)
  }

  // ----- sorting a group -----

  ghost predicate Ordered(rows: seq<Row>) {
    forall i, j | 0 <= i < j < |rows| :: !Before(rows[j], rows[i])
  }

  lemma OrderedFront(r: Row, rows: seq<Row>)
    requires Ordered(rows) && forall q | q in rows :: !Before(q, r)
    ensures Ordered([r] + rows)
  {
    var s := [r] + rows;
    forall i, j | 0 <= i < j < |s| ensures !Before(s[j], s[i]) {
      assert s[j] == rows[j - 1];
    }
  }

  lemma NoneBefore(r: Row, rows: seq<Row>)
    requires Ordered(rows) && rows != [] && !Before(rows[0], r)
    ensures forall q | q in rows :: !Before(q, r)
  {
    forall q | q in rows ensures !Before(q, r) {
      var i :| 0 <= i < |rows| && rows[i] == q;
      assert i > 0 ==> !Before(rows[i], rows[0]);
    }
  }

  function Insert(r: Row, rows: seq<Row>): (s: seq<Row>)
    requires Ordered(rows)
    ensures Ordered(s) && multiset(s) == multiset(rows) + multiset{r}
    ensures forall q :: q in s <==> q == r || q in rows
  {
    if rows == [] then [r]
    else if !Before(rows[0], r) then
      NoneBefore(r, rows);
      OrderedFront(r, rows);
      [r] + rows
    else
      assert rows == [rows[0]] + rows[1..];
      NoneBefore(rows[0], rows);
      var rest := Insert(r, rows[1..]);
      OrderedFront(rows[0], rest);
      [rows[0]] + rest
  }

  function Sorted(rows: seq<Row>): (s: seq<Row>)
    ensures Ordered(s) && multiset(s) == multiset(rows)
    ensures forall q :: q in s <==> q in rows
  {
    if rows == [] then []
    else
      assert rows == [rows[0]] + rows[1..];
      Insert(rows[0], Sorted(rows[1..]))
  }

  // ----- groups -----

  function LiveWith(rows: seq<Row>, k: Key): (g: seq<Row>)
    ensures forall r :: r in g <==> r in rows && Live(r) && KeyOf(r) == k
    ensures DistinctIds(rows) ==> DistinctIds(g)
  {
    var p := (r: Row) => Live(r) && KeyOf(r) == k;
    WhereDistinct(rows, p);
    Where(rows, p)
  }

  function Naming(rows: seq<Row>, soldier: Id): (g: seq<Row>)
    ensures forall r :: r in g <==> r in rows && Named(r) == Some(soldier)
    ensures DistinctIds(rows) ==> DistinctIds(g)
  {
    var p := (r: Row) => Named(r) == Some(soldier);
    WhereDistinct(rows, p);
    Where(rows, p)
  }

  // ----- candidates -----

  predicate AnyTargets(g: seq<Row>, soldier: Id) {
    exists r :: r in g && r.target == Some(soldier)
  }

  predicate AnyUntargeted(g: seq<Row>) {
    exists r :: r in g && r.target.None?
  }

  /** The candidate for a soldier of a group when the given row stands for him. */
  function CandidateFrom(g: seq<Row>, soldier: Id, row: Row): Candidate
    requires g != []
  {
    Candidate(Survivor(g).id, soldier,
              if AnyTargets(g, soldier) then Invited else Marketplace,
              if row.status.PendingApproval? then Accepted else Waiting,
              row.offered, row.coveringApproved, row.createdAt, None)
  }

  /** The one candidate that a soldier becomes in a consolidated group. */
  function CandidateOf(g: seq<Row>, soldier: Id): Candidate
    requires Naming(g, soldier) != []
  {
    assert Naming(g, soldier)[0] in g;
    CandidateFrom(g, soldier, First(Naming(g, soldier)))
  }

  /** The candidate of a row that had come to an end already. */
  function CandidateOfEnded(r: Row): Option<Candidate> {
    if Named(r).None? then None
    else Some(Candidate(r.id, Named(r).value,
                        if r.target.None? then Marketplace else Invited,
                        if r.status.Applied? then AppliedSwap else CancelledSwap,
                        r.offered, r.coveringApproved, r.createdAt, Some(r.updatedAt)))
  }
}
