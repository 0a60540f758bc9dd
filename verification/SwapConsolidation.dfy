/**
 What the consolidation promises, for every table of swap requests: the two uniqueness rules, no
 soldier and no progress lost, and which approvals keep a candidate.
 */
module SwapConsolidation {
  import opened SwapRows
  import opened SwapMigration

  /** The tables after the migration of these requests and approvals. */
  ghost predicate Upgraded(rows: seq<Row>, before: seq<Approval>, parents: seq<Parent>, cs: seq<Candidate>,
                           after: seq<Approval>)
  {
    && DistinctIds(rows)
    && IsParents(rows, parents) && IsCandidates(rows, cs)
    && AreRepointed(rows, cs, before, after)
  }

  /** The migration, on fresh tables, ends in such a state. */
  method Migrate(rows: seq<Row>, approvals: seq<Approval>)
    returns (parents: seq<Parent>, cs: seq<Candidate>, after: seq<Approval>)
    requires DistinctIds(rows)
    ensures Upgraded(rows, approvals, parents, cs, after)
  {
    var tables := new Tables(rows, approvals);
    tables.Upgrade();
    parents, cs, after := tables.parents, tables.candidates, tables.approvals;
  }

  // ----- what the columns of a row say -----

  predicate InProgress(r: Row) {
    r.status == Open || r.status == PendingApproval
  }

  /** The same soldier wants to be rid of the same duty. */
  predicate SameCase(q: Row, r: Row) {
    q.requester == r.requester && q.duty == r.duty
  }

  /** The row is about its covering soldier, or about its target while nobody covers. */
  predicate About(r: Row, soldier: Id) {
    r.covering == Some(soldier) || (r.covering == None && r.target == Some(soldier))
  }

  /** Awaiting approval before open, then older, then by identifier. */
  predicate Outranks(q: Row, r: Row) {
    || (q.status == PendingApproval && r.status == Open)
    || (q.status == r.status && (q.createdAt < r.createdAt || (q.createdAt == r.createdAt && q.id < r.id)))
  }

  lemma ColumnsDecide(q: Row, r: Row)
    ensures Live(r) <==> InProgress(r)
    ensures KeyOf(q) == KeyOf(r) <==> SameCase(q, r)
    ensures forall soldier: Id :: Named(r) == Some(soldier) <==> About(r, soldier)
    ensures InProgress(q) && InProgress(r) ==> (Before(q, r) <==> Outranks(q, r))
  {
  }

  /** Some other row in progress for the same case comes before this one. */
  ghost predicate Preceded(rows: seq<Row>, r: Row) {
    InProgress(r) && exists q :: q in rows && InProgress(q) && SameCase(q, r) && Outranks(q, r)
  }

  /** The first row in progress for its case. */
  ghost predicate Leads(rows: seq<Row>, r: Row) {
    r in rows && InProgress(r) && !Preceded(rows, r)
  }

  lemma SurvivesUnlessPreceded(rows: seq<Row>, r: Row)
    requires DistinctIds(rows) && r in rows
    ensures Survives(rows, r) <==> !Preceded(rows, r)
  {
    ColumnsDecide(r, r);
    if Live(r) {
      var g := LiveWith(rows, KeyOf(r));
      assert r in g;
      SameIdSameRow(rows, r, Survivor(g));
      ColumnsDecide(Survivor(g), r);
      if Survivor(g) != r {
        assert Before(Survivor(g), r);
      }
      if q :| q in rows && InProgress(q) && SameCase(q, r) && Outranks(q, r) {
        ColumnsDecide(q, r);
        assert q in g;
      }
    }
  }

  lemma LeaderSurvives(rows: seq<Row>, r: Row)
    requires DistinctIds(rows) && Leads(rows, r)
    ensures LiveWith(rows, KeyOf(r)) != [] && r == Survivor(LiveWith(rows, KeyOf(r)))
  {
    SurvivesUnlessPreceded(rows, r);
  }

  // ----- parents -----

  /**
   A row remains unless another one of its case precedes it, with its own identity and dates. It is
   open if it was in progress and keeps its status otherwise; it is on the marketplace iff it, or
   for a row in progress some row in progress of its case, had no target.
   */
  lemma ParentsExact(rows: seq<Row>, parents: seq<Parent>, r: Row)
    requires DistinctIds(rows) && IsParents(rows, parents) && r in rows
    ensures (exists p :: p in parents && p.id == r.id) <==> !Preceded(rows, r)
    ensures forall p | p in parents && p.id == r.id ::
              && p.requester == r.requester && p.duty == r.duty
              && p.createdAt == r.createdAt && p.updatedAt == r.updatedAt
              && p.status == (if InProgress(r) then Open else r.status)
              && (p.toMarketplace <==> PostedByCase(rows, r))
  {
    SurvivesUnlessPreceded(rows, r);
    if Survives(rows, r) {
      var i :| 0 <= i < |parents| && Kept(rows)[i] == r;
      assert parents[i] in parents;
    }
    forall p | p in parents && p.id == r.id
      ensures Survives(rows, r) && p == ParentOf(r, Posted(rows, r))
    {
      var i :| 0 <= i < |parents| && parents[i] == p;
      assert Kept(rows)[i] in Kept(rows);
      SameIdSameRow(rows, Kept(rows)[i], r);
    }
    PostedMeans(rows, r);
  }

  ghost predicate PostedByCase(rows: seq<Row>, r: Row) {
    if InProgress(r) then exists q :: q in rows && InProgress(q) && SameCase(q, r) && q.target == None
    else r.target == None
  }

  lemma PostedMeans(rows: seq<Row>, r: Row)
    ensures Posted(rows, r) <==> PostedByCase(rows, r)
  {
    if InProgress(r) {
      if q :| q in rows && InProgress(q) && SameCase(q, r) && q.target == None {
        assert q in LiveWith(rows, KeyOf(r));
      }
    }
  }

  /** The partial unique index can be created: one open parent per requester and duty. */
  lemma OneOpenParent(rows: seq<Row>, parents: seq<Parent>, i: nat, j: nat)
    requires DistinctIds(rows) && IsParents(rows, parents) && i < |parents| && j < |parents|
    requires parents[i].status.Open? && parents[j].status.Open?
    requires parents[i].requester == parents[j].requester && parents[i].duty == parents[j].duty
    ensures i == j
  {
    var p, q := Kept(rows)[i], Kept(rows)[j];
    assert p in Kept(rows) && q in Kept(rows);
    assert Live(p) && Live(q) && KeyOf(p) == KeyOf(q);
    assert p == Survivor(LiveWith(rows, KeyOf(p))) && q == Survivor(LiveWith(rows, KeyOf(q)));
  }

  /** Each case in progress keeps exactly one row, one that awaits approval whenever the case has one. */
  lemma GroupKeepsProgress(rows: seq<Row>, r: Row)
    requires DistinctIds(rows) && r in rows && InProgress(r)
    ensures exists p :: Leads(rows, p) && SameCase(p, r) && !Outranks(r, p)
    ensures forall p, q | Leads(rows, p) && Leads(rows, q) && SameCase(p, r) && SameCase(q, r) :: p == q
    ensures r.status == PendingApproval ==>
              forall p | Leads(rows, p) && SameCase(p, r) :: p.status == PendingApproval
  {
    var g := LiveWith(rows, KeyOf(r));
    assert r in g;
    var p := Survivor(g);
    ColumnsDecide(p, p);
    ColumnsDecide(r, p);
    SurvivesUnlessPreceded(rows, p);
    assert Leads(rows, p) && SameCase(p, r);
    forall q | Leads(rows, q) && SameCase(q, r) ensures q == p {
      LeaderSurvives(rows, q);
      assert KeyOf(q) == KeyOf(r);
    }
  }

  // ----- candidates -----

  /** No candidate is left without its parent. */
  lemma CandidatesHaveParents(rows: seq<Row>, parents: seq<Parent>, cs: seq<Candidate>, c: Candidate)
    requires IsParents(rows, parents) && IsCandidates(rows, cs) && c in cs
    ensures exists p :: p in parents && p.id == c.request
  {
    var r: Row;
    if FromEnded(rows, c) {
      r :| r in rows && !Live(r) && CandidateOfEnded(r) == Some(c);
    } else {
      var k: Key :| FromKey(rows, k, c);
      r := Survivor(LiveWith(rows, k));
    }
    assert r in Kept(rows);
    var i :| 0 <= i < |parents| && Kept(rows)[i] == r;
    assert parents[i] in parents;
  }

  /** Some row in progress of this case is about the soldier. */
  ghost predicate NamedInCase(rows: seq<Row>, top: Row, soldier: Id) {
    exists r :: r in rows && InProgress(r) && SameCase(r, top) && About(r, soldier)
  }

  ghost predicate AwaitedInCase(rows: seq<Row>, top: Row, soldier: Id) {
    exists r :: r in rows && r.status == PendingApproval && SameCase(r, top) && About(r, soldier)
  }

  ghost predicate InvitedInCase(rows: seq<Row>, top: Row, soldier: Id) {
    exists r :: r in rows && InProgress(r) && SameCase(r, top) && r.target == Some(soldier)
  }

  lemma NamingIsNamed(rows: seq<Row>, top: Row, soldier: Id)
    ensures Naming(LiveWith(rows, KeyOf(top)), soldier) != [] <==> NamedInCase(rows, top, soldier)
  {
    var named := Naming(LiveWith(rows, KeyOf(top)), soldier);
    if named != [] {
      assert named[0] in named;
      ColumnsDecide(named[0], named[0]);
      assert About(named[0], soldier);
    }
    if r :| r in rows && InProgress(r) && SameCase(r, top) && About(r, soldier) {
      ColumnsDecide(r, r);
      assert r in named;
    }
  }

  /**
   Under the row that leads its case, the soldiers are exactly those that the case's rows in
   progress are about; a soldier has been accepted iff some row about him was awaiting approval,
   and counts as invited iff some row asked for him; his offer, his approval and his date come from
   the first of the rows about him.
   */
  lemma GroupCandidatesExact(rows: seq<Row>, cs: seq<Candidate>, top: Row, soldier: Id)
    requires DistinctIds(rows) && IsCandidates(rows, cs) && Leads(rows, top)
    ensures (exists c :: c in cs && c.request == top.id && c.soldier == soldier) <==> NamedInCase(rows, top, soldier)
    ensures forall c | c in cs && c.request == top.id && c.soldier == soldier ::
              && c.progress == (if AwaitedInCase(rows, top, soldier) then Accepted else Waiting)
              && c.source == (if InvitedInCase(rows, top, soldier) then Invited else Marketplace)
              && c.decidedAt == None
              && FromFirst(rows, top, c)
  {
    LeaderSurvives(rows, top);
    var k := KeyOf(top);
    var g := LiveWith(rows, k);
    NamingIsNamed(rows, top, soldier);
    if NamedInCase(rows, top, soldier) {
      var c := CandidateOf(g, soldier);
      assert FromKey(rows, k, c);
      assert c in cs && c.request == top.id && c.soldier == soldier;
    }
    forall c | c in cs && c.request == top.id && c.soldier == soldier ensures FromKey(rows, k, c) {
      CandidateOfParent(rows, cs, k, c);
    }
    if Naming(g, soldier) != [] {
      FirstDecides(rows, top, soldier);
    }
  }

  /** The row that its details come from precedes every other row about the soldier. */
  ghost predicate FromFirst(rows: seq<Row>, top: Row, c: Candidate) {
    exists r :: IsFirst(rows, top, c.soldier, r) &&
                c.offered == r.offered && c.approved == r.coveringApproved && c.createdAt == r.createdAt
  }

  ghost predicate IsFirst(rows: seq<Row>, top: Row, soldier: Id, r: Row) {
    && r in rows && InProgress(r) && SameCase(r, top) && About(r, soldier)
    && forall q | q in rows && InProgress(q) && SameCase(q, top) && About(q, soldier) :: !Outranks(q, r)
  }

  lemma CandidateOfParent(rows: seq<Row>, cs: seq<Candidate>, k: Key, c: Candidate)
    requires DistinctIds(rows) && IsCandidates(rows, cs) && LiveWith(rows, k) != []
    requires c in cs && c.request == Survivor(LiveWith(rows, k)).id
    ensures FromKey(rows, k, c)
  {
    var parent := Survivor(LiveWith(rows, k));
    forall r | r in rows && r.id == c.request ensures r == parent {
      SameIdSameRow(rows, r, parent);
    }
    assert Expected(rows, c);
    assert !FromEnded(rows, c);
    var m: Key :| FromKey(rows, m, c);
    assert Survivor(LiveWith(rows, m)) == parent;
  }

  lemma NamingIsAbout(rows: seq<Row>, top: Row, soldier: Id, q: Row)
    ensures q in Naming(LiveWith(rows, KeyOf(top)), soldier)
            <==> q in rows && InProgress(q) && SameCase(q, top) && About(q, soldier)
  {
    ColumnsDecide(q, top);
    assert Named(q) == Some(soldier) <==> About(q, soldier);
  }

  lemma FirstIsFirst(rows: seq<Row>, top: Row, soldier: Id)
    requires Naming(LiveWith(rows, KeyOf(top)), soldier) != []
    ensures IsFirst(rows, top, soldier, First(Naming(LiveWith(rows, KeyOf(top)), soldier)))
  {
    var r := First(Naming(LiveWith(rows, KeyOf(top)), soldier));
    NamingIsAbout(rows, top, soldier, r);
    forall q | q in rows && InProgress(q) && SameCase(q, top) && About(q, soldier) ensures !Outranks(q, r) {
      NamingIsAbout(rows, top, soldier, q);
      ColumnsDecide(q, r);
    }
  }

  lemma InvitedMeans(rows: seq<Row>, top: Row, soldier: Id)
    ensures AnyTargets(LiveWith(rows, KeyOf(top)), soldier) <==> InvitedInCase(rows, top, soldier)
  {
    if q :| q in rows && InProgress(q) && SameCase(q, top) && q.target == Some(soldier) {
      assert q in LiveWith(rows, KeyOf(top));
    }
  }

  lemma AwaitedMeans(rows: seq<Row>, top: Row, soldier: Id, r: Row)
    requires IsFirst(rows, top, soldier, r)
    ensures r.status.PendingApproval? <==> AwaitedInCase(rows, top, soldier)
  {
  }

  lemma FirstDecides(rows: seq<Row>, top: Row, soldier: Id)
    requires Naming(LiveWith(rows, KeyOf(top)), soldier) != []
    ensures var r := First(Naming(LiveWith(rows, KeyOf(top)), soldier));
            && IsFirst(rows, top, soldier, r)
            && (r.status.PendingApproval? <==> AwaitedInCase(rows, top, soldier))
    ensures AnyTargets(LiveWith(rows, KeyOf(top)), soldier) <==> InvitedInCase(rows, top, soldier)
    ensures FromFirst(rows, top, CandidateOf(LiveWith(rows, KeyOf(top)), soldier))
  {
    FirstIsFirst(rows, top, soldier);
    AwaitedMeans(rows, top, soldier, First(Naming(LiveWith(rows, KeyOf(top)), soldier)));
    InvitedMeans(rows, top, soldier);
  }

  /** An ended row keeps its own parent; its soldier, if it has one, is its only candidate. */
  lemma CandidateOfEndedRow(rows: seq<Row>, cs: seq<Candidate>, r: Row)
    requires DistinctIds(rows) && IsCandidates(rows, cs) && r in rows && !Live(r)
    ensures forall c :: c in cs && c.request == r.id <==> CandidateOfEnded(r) == Some(c)
  {
    forall c ensures c in cs && c.request == r.id <==> CandidateOfEnded(r) == Some(c) {
      if c in cs && c.request == r.id {
        forall q | q in rows && q.id == r.id ensures q == r {
          SameIdSameRow(rows, q, r);
        }
        assert Expected(rows, c);
        assert forall k: Key :: !FromKey(rows, k, c);
      }
      if CandidateOfEnded(r) == Some(c) {
        assert FromEnded(rows, c);
      }
    }
  }

  /**
   Under a row that had come to an end there is a candidate for the soldier it is about and for no
   other, once: applied iff the row was applied and cancelled otherwise, from the marketplace iff
   the row had no target, with the row's offer, approval and date, decided when it last changed.
   */
  lemma EndedRowKept(rows: seq<Row>, cs: seq<Candidate>, r: Row)
    requires DistinctIds(rows) && IsCandidates(rows, cs) && r in rows && !InProgress(r)
    ensures r in Kept(rows)
    ensures forall soldier: Id ::
              (exists c :: c in cs && c.request == r.id && c.soldier == soldier) <==> About(r, soldier)
    ensures forall c | c in cs && c.request == r.id ::
              && c.progress == (if r.status == Applied then AppliedSwap else CancelledSwap)
              && c.source == (if r.target == None then Marketplace else Invited)
              && c.offered == r.offered && c.approved == r.coveringApproved && c.createdAt == r.createdAt
              && c.decidedAt == Some(r.updatedAt)
    ensures forall i, j | 0 <= i < |cs| && 0 <= j < |cs| && cs[i].request == cs[j].request == r.id :: i == j
  {
    ColumnsDecide(r, r);
    CandidateOfEndedRow(rows, cs, r);
    forall soldier: Id | About(r, soldier) ensures exists c :: c in cs && c.request == r.id && c.soldier == soldier {
      var c := CandidateOfEnded(r).value;
      assert CandidateOfEnded(r) == Some(c);
      assert c in cs && c.request == r.id && c.soldier == soldier;
    }
    forall c | c in cs && c.request == r.id ensures CandidateOfEnded(r) == Some(c) {
    }
    forall i, j | 0 <= i < |cs| && 0 <= j < |cs| && cs[i].request == cs[j].request == r.id ensures i == j {
      assert cs[i] in cs && cs[j] in cs;
      assert CandidateOfEnded(r) == Some(cs[i]) == Some(cs[j]);
    }
  }

  // ----- approvals -----

  /** The approval b is a, pointing at the candidate of its row's own covering soldier. */
  ghost predicate Follows(a: Approval, b: Approval, cs: seq<Candidate>, r: Row) {
    && b.candidate.Some? && b.candidate.value < |cs| && b == a.(candidate := b.candidate)
    && r.covering == Some(cs[b.candidate.value].soldier) && cs[b.candidate.value].request == r.id
    && (r.status.PendingApproval? ==> cs[b.candidate.value].progress.Accepted?)
  }

  /**
   An approval of the covering side that is left on a surviving row points, afterwards, at the
   candidate of that row's own covering soldier, whoever else the group holds.
   */
  lemma ApprovalFollows(rows: seq<Row>, before: seq<Approval>, parents: seq<Parent>, cs: seq<Candidate>,
                        after: seq<Approval>,
                        a: Approval, r: Row)
    requires Upgraded(rows, before, parents, cs, after) && a in before
    requires a.side.CoveringSide? && r in Kept(rows) && r.id == a.request && r.covering.Some?
    ensures exists b :: b in after && Follows(a, b, cs, r)
  {
    forall q | q in rows && q.id == r.id ensures q == r {
      SameIdSameRow(rows, q, r);
    }
    assert a in KeptApprovals(rows, before);
    var i :| 0 <= i < |after| && KeptApprovals(rows, before)[i] == a;
    assert IsRepointed(Kept(rows), cs, a, after[i]);
    var c := OwnCandidate(rows, cs, r);
    assert after[i].candidate.Some?;
    var d := cs[after[i].candidate.value];
    assert d.soldier == c.soldier && d == c;
    assert Follows(a, after[i], cs, r);
  }

  /** The approvals of a row that its group gives up are gone. */
  lemma ApprovalsGo(rows: seq<Row>, before: seq<Approval>, parents: seq<Parent>, cs: seq<Candidate>,
                    after: seq<Approval>, r: Row)
    requires Upgraded(rows, before, parents, cs, after) && r in rows && !Survives(rows, r)
    ensures forall b | b in after :: b.request != r.id
  {
    forall b | b in after ensures b.request != r.id {
      var i :| 0 <= i < |after| && after[i] == b;
      assert IsRepointed(Kept(rows), cs, KeptApprovals(rows, before)[i], b);
      assert KeptApprovals(rows, before)[i] in KeptApprovals(rows, before);
    }
  }

  lemma OwnCandidate(rows: seq<Row>, cs: seq<Candidate>, r: Row) returns (c: Candidate)
    requires DistinctIds(rows) && IsCandidates(rows, cs) && r in Kept(rows) && r.covering.Some?
    ensures c in cs && c.request == r.id && c.soldier == r.covering.value
    ensures r.status.PendingApproval? ==> c.progress.Accepted?
  {
    if Live(r) {
      var k := KeyOf(r);
      assert r in Naming(LiveWith(rows, k), r.covering.value);
      c := CandidateOf(LiveWith(rows, k), r.covering.value);
      assert FromKey(rows, k, c);
      FirstDecides(rows, r, r.covering.value);
    } else {
      c := CandidateOfEnded(r).value;
      assert FromEnded(rows, c);
    }
  }

  ghost predicate Keyed(as_: seq<Approval>, key: Approval -> (Id, Side, Id, Id)) {
    forall i, j | 0 <= i < |as_| && 0 <= j < |as_| && key(as_[i]) == key(as_[j]) :: i == j
  }

  lemma {:induction false} KeyedKept(rows: seq<Row>, as_: seq<Approval>, key: Approval -> (Id, Side, Id, Id))
    requires Keyed(as_, key)
    ensures Keyed(KeptApprovals(rows, as_), key)
  {
    if as_ != [] {
      var front, last := as_[..|as_| - 1], as_[|as_| - 1];
      KeyedKept(rows, front, key);
      forall a | a in KeptApprovals(rows, front) ensures key(a) != key(last) {
        var i :| 0 <= i < |front| && front[i] == a;
        assert as_[i] == a;
      }
    }
  }

  /** The new unique constraint, which adds the candidate column, holds because the old one did. */
  lemma NewConstraintHolds(rows: seq<Row>, before: seq<Approval>, parents: seq<Parent>, cs: seq<Candidate>,
                           after: seq<Approval>,
                           i: nat, j: nat)
    requires Upgraded(rows, before, parents, cs, after) && i < |after| && j < |after|
    requires Keyed(before, (a: Approval) => (a.request, a.side, a.commander, a.kind))
    requires after[i].request == after[j].request && after[i].candidate == after[j].candidate
    requires after[i].side == after[j].side && after[i].commander == after[j].commander
      && after[i].kind == after[j].kind
    ensures i == j
  {
    var key := (a: Approval) => (a.request, a.side, a.commander, a.kind);
    var kept := KeptApprovals(rows, before);
    KeyedKept(rows, before, key);
    assert IsRepointed(Kept(rows), cs, kept[i], after[i]) && IsRepointed(Kept(rows), cs, kept[j], after[j]);
    assert key(kept[i]) == key(kept[j]);
  }

  /** An approval of the covering side, its row, and a covering soldier to point at. */
  ghost predicate Covers(rows: seq<Row>, a: Approval, r: Row) {
    a.side.CoveringSide? && r in rows && r.id == a.request && r.covering.Some?
  }

  /** The same approval, whichever candidate it points at. */
  ghost predicate Same(a: Approval, b: Approval) {
    b == a.(candidate := b.candidate)
  }

  ghost predicate Remains(a: Approval, after: seq<Approval>) {
    exists b :: b in after && Same(a, b)
  }

  /** The row that the approval belongs to. */
  ghost predicate SitsOn(rows: seq<Row>, a: Approval, r: Row) {
    r in rows && r.id == a.request
  }

  lemma ApprovalRemains(rows: seq<Row>, before: seq<Approval>, parents: seq<Parent>, cs: seq<Candidate>,
                        after: seq<Approval>,
                        a: Approval, r: Row)
    requires Upgraded(rows, before, parents, cs, after) && a in before && SitsOn(rows, a, r)
    ensures Remains(a, after) <==> !Preceded(rows, r)
  {
    SurvivesUnlessPreceded(rows, r);
    forall q | q in rows && q.id == r.id ensures q == r {
      SameIdSameRow(rows, q, r);
    }
    if Survives(rows, r) {
      assert a in KeptApprovals(rows, before);
      var i :| 0 <= i < |after| && KeptApprovals(rows, before)[i] == a;
      assert IsRepointed(Kept(rows), cs, a, after[i]);
      assert Same(a, after[i]);
    } else {
      ApprovalsGo(rows, before, parents, cs, after, r);
    }
  }

  /**
   Every approval of an existing request, of either side, is still there exactly when none of them
   sits on a row that another row of its group precedes.
   */
  lemma ApprovalsRemainIffNonePreceded(rows: seq<Row>, before: seq<Approval>, parents: seq<Parent>, cs: seq<Candidate>,
                                       after: seq<Approval>)
    requires Upgraded(rows, before, parents, cs, after)
    ensures (forall a, r | a in before && SitsOn(rows, a, r) :: Remains(a, after))
       <==> (forall a, r | a in before && SitsOn(rows, a, r) :: !Preceded(rows, r))
  {
    forall a, r | a in before && SitsOn(rows, a, r) ensures Remains(a, after) <==> !Preceded(rows, r) {
      ApprovalRemains(rows, before, parents, cs, after, a, r);
    }
  }

  /**
   Every approval of a covering soldier is still there and points at his candidate exactly when
   none of them sits on a row that another row of its group precedes. An awaiting row can be
   preceded: by an older one that awaits approval too.
   */
  lemma ApprovalsKeptIffNonePreceded(rows: seq<Row>, before: seq<Approval>, parents: seq<Parent>, cs: seq<Candidate>,
                                     after: seq<Approval>)
    requires Upgraded(rows, before, parents, cs, after)
    ensures (forall a, r | a in before && Covers(rows, a, r) :: exists b :: b in after && Follows(a, b, cs, r))
       <==> (forall a, r | a in before && Covers(rows, a, r) :: !Preceded(rows, r))
  {
    forall a, r | a in before && Covers(rows, a, r)
      ensures (exists b :: b in after && Follows(a, b, cs, r)) <==> !Preceded(rows, r)
    {
      SurvivesUnlessPreceded(rows, r);
      if Survives(rows, r) {
        ApprovalFollows(rows, before, parents, cs, after, a, r);
      } else {
        ApprovalsGo(rows, before, parents, cs, after, r);
      }
    }
  }

  /**
   Two soldiers cover two rows of one duty: an approval of the second row, of either side, is
   deleted with it, while the covering soldier remains an accepted candidate of the first row.
   */
  lemma SecondCoverLosesApproval(rows: seq<Row>, before: seq<Approval>, parents: seq<Parent>, cs: seq<Candidate>,
                                 after: seq<Approval>, side: Side)
    requires rows == [Row(1, 7, 8, None, Some(10), None, [], PendingApproval, 0, 0),
                      Row(2, 7, 8, None, Some(11), None, [], PendingApproval, 1, 1)]
    requires before == [Approval(0, 2, side, 5, 0, None)]
    requires Upgraded(rows, before, parents, cs, after)
    ensures after == []
    ensures exists c :: c in cs && c.request == 1 && c.soldier == 11 && c.progress.Accepted?
  {
    var p, q := rows[0], rows[1];
    assert p in rows && q in rows && Before(p, q);
    SurvivesUnlessPreceded(rows, p);
    SurvivesUnlessPreceded(rows, q);
    assert Preceded(rows, q) && !Preceded(rows, p);
    assert GivenUp(rows, 2);
    assert before[..0] == [];
    assert KeptApprovals(rows, before) == [];
    var g := LiveWith(rows, (7, 8));
    assert p in g && p == Survivor(g);
    assert AwaitedInCase(rows, p, 11) && NamedInCase(rows, p, 11) && Leads(rows, p);
    GroupCandidatesExact(rows, cs, p, 11);
  }
}
