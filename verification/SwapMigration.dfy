/**
 The consolidation of swap requests: every group of live rows of one requester and duty becomes
 one parent with a candidate per soldier, every ended row keeps its own parent and candidate,
 and approvals follow their soldiers.
 */
module SwapMigration {
  import opened SwapRows

  datatype Side = RequestingSide | CoveringSide

  /** An approval; the candidate column holds a position in the table of candidates. */
  datatype Approval = Approval(id: Id, request: Id, side: Side, commander: Id, kind: Id, candidate: Option<nat>)

  datatype Parent = Parent(
    id: Id,
    requester: Id,
    duty: Id,
    status: Status,
    toMarketplace: bool,
    createdAt: int,
    updatedAt: int)

  // ----- what the tables should become -----

  predicate Survives(rows: seq<Row>, r: Row) {
    Live(r) ==> LiveWith(rows, KeyOf(r)) != [] && r == Survivor(LiveWith(rows, KeyOf(r)))
  }

  function Kept(rows: seq<Row>): (r: seq<Row>)
    ensures forall q :: q in r <==> q in rows && Survives(rows, q)
    ensures DistinctIds(rows) ==> DistinctIds(r)
  {
    var p := (q: Row) => Survives(rows, q);
    WhereDistinct(rows, p);
    Where(rows, p)
  }

  predicate Posted(rows: seq<Row>, r: Row) {
    if Live(r) then AnyUntargeted(LiveWith(rows, KeyOf(r))) else r.target.None?
  }

  function ParentOf(r: Row, posted: bool): Parent {
    Parent(r.id, r.requester, r.duty, if r.status.PendingApproval? then Open else r.status, posted, r.createdAt,
      r.updatedAt)
  }

  ghost predicate IsParents(rows: seq<Row>, parents: seq<Parent>) {
    && |parents| == |Kept(rows)|
    && forall i | 0 <= i < |parents| :: parents[i] == ParentOf(Kept(rows)[i], Posted(rows, Kept(rows)[i]))
  }

  ghost predicate FromGroup(g: seq<Row>, c: Candidate) {
    Naming(g, c.soldier) != [] && c == CandidateOf(g, c.soldier)
  }

  ghost predicate FromKey(rows: seq<Row>, k: Key, c: Candidate) {
    FromGroup(LiveWith(rows, k), c)
  }

  ghost predicate FromEnded(rows: seq<Row>, c: Candidate) {
    exists r :: r in rows && !Live(r) && CandidateOfEnded(r) == Some(c)
  }

  ghost predicate PairsDistinct(cs: seq<Candidate>) {
    forall i, j | 0 <= i < |cs| && 0 <= j < |cs| && cs[i].request == cs[j].request
      && cs[i].soldier == cs[j].soldier :: i == j
  }

  ghost predicate Expected(rows: seq<Row>, c: Candidate) {
    FromEnded(rows, c) || exists k: Key :: FromKey(rows, k, c)
  }

  ghost predicate IsCandidates(rows: seq<Row>, cs: seq<Candidate>) {
    PairsDistinct(cs) && forall c :: c in cs <==> Expected(rows, c)
  }

  /** A row with this identifier goes. */
  ghost predicate GivenUp(rows: seq<Row>, id: Id) {
    exists r :: r in rows && r.id == id && !Survives(rows, r)
  }

  /** The approvals that remain: deleting a request deletes its approvals with it. */
  ghost function KeptApprovals(rows: seq<Row>, approvals: seq<Approval>): (r: seq<Approval>)
    ensures forall a :: a in r <==> a in approvals && !GivenUp(rows, a.request)
  {
    if approvals == [] then []
    else
      var last := approvals[|approvals| - 1];
      assert approvals == approvals[..|approvals| - 1] + [last];
      KeptApprovals(rows, approvals[..|approvals| - 1]) + if GivenUp(rows, last.request) then [] else [last]
  }

  /** An approval of the covering side points at the candidate of its own row's covering soldier. */
  ghost predicate IsRepointed(kept: seq<Row>, cs: seq<Candidate>, a: Approval, b: Approval) {
    && b == a.(candidate := b.candidate)
    && (b.candidate.Some? ==>
          && a.side.CoveringSide? && b.candidate.value < |cs| && cs[b.candidate.value].request == a.request
          && exists r :: r in kept && r.id == a.request && r.covering == Some(cs[b.candidate.value].soldier))
    && (b.candidate.None? ==>
          forall r, c | a.side.CoveringSide? && r in kept && r.id == a.request && c in cs && c.request == r.id ::
            r.covering != Some(c.soldier))
  }

  /** The approvals afterwards: those of the remaining rows, each re-pointed. */
  ghost predicate AreRepointed(rows: seq<Row>, cs: seq<Candidate>, before: seq<Approval>, after: seq<Approval>) {
    && |after| == |KeptApprovals(rows, before)|
    && forall i | 0 <= i < |after| :: IsRepointed(Kept(rows), cs, KeptApprovals(rows, before)[i], after[i])
  }

  // ----- the steps -----

  /** A table of groups: each key once, and under it the live rows that have it. */
  ghost predicate Grouped(rows: seq<Row>, keys: seq<Key>, groups: map<Key, seq<Row>>) {
    && (forall i, j | 0 <= i < j < |keys| :: keys[i] != keys[j])
    && (forall k :: k in keys <==> k in groups)
    && (forall k: Key :: GroupAt(rows, groups, k))
  }

  ghost predicate GroupAt(rows: seq<Row>, groups: map<Key, seq<Row>>, k: Key) {
    if k in groups then groups[k] == LiveWith(rows, k) != [] else LiveWith(rows, k) == []
  }

  lemma LiveWithAppend(rows: seq<Row>, row: Row, k: Key)
    ensures LiveWith(rows + [row], k) == LiveWith(rows, k) + if Live(row) && KeyOf(row) == k then [row] else []
  {
    assert (rows + [row])[..|rows|] == rows;
  }

  lemma GroupedSkip(rows: seq<Row>, row: Row, keys: seq<Key>, groups: map<Key, seq<Row>>)
    requires Grouped(rows, keys, groups) && !Live(row)
    ensures Grouped(rows + [row], keys, groups)
  {
    forall k: Key ensures GroupAt(rows + [row], groups, k) {
      assert GroupAt(rows, groups, k);
      LiveWithAppend(rows, row, k);
    }
  }

  lemma GroupedAdd(rows: seq<Row>, row: Row, keys: seq<Key>, groups: map<Key, seq<Row>>,
                  newKeys: seq<Key>, g: seq<Row>)
    requires Grouped(rows, keys, groups) && Live(row)
    requires newKeys == if KeyOf(row) in groups then keys else keys + [KeyOf(row)]
    requires g == if KeyOf(row) in groups then groups[KeyOf(row)] else []
    ensures Grouped(rows + [row], newKeys, groups[KeyOf(row) := g + [row]])
  {
    var key := KeyOf(row);
    var after := groups[key := g + [row]];
    forall k: Key ensures GroupAt(rows + [row], after, k) {
      assert GroupAt(rows, groups, k);
      LiveWithAppend(rows, row, k);
    }
  }

  /** The rows by requester and duty, in order of first appearance, and the ended rows. */
  method GroupRows(rows: seq<Row>) returns (keys: seq<Key>, groups: map<Key, seq<Row>>, others: seq<Row>)
    ensures Grouped(rows, keys, groups)
    ensures others == Where(rows, (r: Row) => !Live(r))
  {
    keys, groups, others := [], map[], [];
    ghost var ended := (r: Row) => !Live(r);
    for i := 0 to |rows|
      invariant Grouped(rows[..i], keys, groups)
      invariant others == Where(rows[..i], ended)
    {
      var row := rows[i];
      assert rows[..i + 1][..i] == rows[..i] && rows[..i + 1] == rows[..i] + [row];
      if Live(row) {
        var k := KeyOf(row);
        var g := if k in groups then groups[k] else [];
        var newKeys := if k in groups then keys else keys + [k];
        GroupedAdd(rows[..i], row, keys, groups, newKeys, g);
        keys, groups := newKeys, groups[k := g + [row]];
      } else {
        GroupedSkip(rows[..i], row, keys, groups);
        others := others + [row];
      }
    }
    assert rows[..|rows|] == rows;
  }

  /** Which row stands for each soldier, after looking at some of the rows in order. */
  ghost predicate Represented(rows: seq<Row>, soldiers: seq<Id>, rowOf: map<Id, Row>) {
    && (forall i, j | 0 <= i < j < |soldiers| :: soldiers[i] != soldiers[j])
    && (forall s :: s in soldiers <==> s in rowOf)
    && (forall r | r in rows && Named(r).Some? :: Named(r).value in rowOf)
    && (forall s | s in rowOf :: rowOf[s] in rows && Named(rowOf[s]) == Some(s))
    && (forall r | r in rows && Named(r).Some? :: !Before(r, rowOf[Named(r).value]))
  }

  lemma FirstStays(rows: seq<Row>, row: Row, soldiers: seq<Id>, rowOf: map<Id, Row>)
    requires Represented(rows, soldiers, rowOf) && Ordered(rows + [row])
    requires Named(row).None? || Named(row).value in rowOf
    ensures Represented(rows + [row], soldiers, rowOf)
  {
    if Named(row).Some? {
      var q := rowOf[Named(row).value];
      var i :| 0 <= i < |rows| && rows[i] == q;
      assert (rows + [row])[i] == q && (rows + [row])[|rows|] == row;
    }
  }

  lemma FirstSeen(rows: seq<Row>, row: Row, soldiers: seq<Id>, rowOf: map<Id, Row>)
    requires Represented(rows, soldiers, rowOf) && Named(row).Some? && Named(row).value !in rowOf
    ensures Represented(rows + [row], soldiers + [Named(row).value], rowOf[Named(row).value := row])
  {
  }

  /** Every soldier named in the group, once, with the first of the rows that name him. */
  ghost predicate StandFor(g: seq<Row>, soldiers: seq<Id>, rowOf: map<Id, Row>) {
    && (forall i, j | 0 <= i < j < |soldiers| :: soldiers[i] != soldiers[j])
    && (forall s :: s in soldiers <==> Naming(g, s) != [])
    && (forall s | s in soldiers :: s in rowOf && rowOf[s] == First(Naming(g, s)))
  }

  lemma OrderedPrefix(sorted: seq<Row>, i: nat)
    requires Ordered(sorted) && i < |sorted|
    ensures sorted[..i + 1] == sorted[..i] + [sorted[i]] && Ordered(sorted[..i] + [sorted[i]])
  {
    var p := sorted[..i + 1];
    assert p == sorted[..i] + [sorted[i]];
    forall a, b | 0 <= a < b < |p| ensures !Before(p[b], p[a]) {
      assert p[a] == sorted[a] && p[b] == sorted[b];
    }
  }

  /** One pass over the sorted group; the first row that names a soldier stands for him. */
  method RowsBySoldier(g: seq<Row>) returns (soldiers: seq<Id>, rowOf: map<Id, Row>)
    requires DistinctIds(g)
    ensures StandFor(g, soldiers, rowOf)
  {
    var sorted := Sorted(g);
    soldiers, rowOf := [], map[];
    for i := 0 to |sorted|
      invariant Represented(sorted[..i], soldiers, rowOf)
    {
      var row := sorted[i];
      OrderedPrefix(sorted, i);
      if Named(row).Some? && Named(row).value !in rowOf {
        FirstSeen(sorted[..i], row, soldiers, rowOf);
        rowOf := rowOf[Named(row).value := row];
        soldiers := soldiers + [Named(row).value];
      } else {
        FirstStays(sorted[..i], row, soldiers, rowOf);
      }
    }
    assert sorted[..|sorted|] == sorted;
    RepresentedByFirst(g, sorted, soldiers, rowOf);
  }

  lemma RepresentedByFirst(g: seq<Row>, sorted: seq<Row>, soldiers: seq<Id>, rowOf: map<Id, Row>)
    requires DistinctIds(g) && Represented(sorted, soldiers, rowOf) && forall r :: r in sorted <==> r in g
    ensures StandFor(g, soldiers, rowOf)
  {
    forall s: Id ensures s in soldiers <==> Naming(g, s) != [] {
      if s in soldiers {
        assert rowOf[s] in Naming(g, s);
      }
      if Naming(g, s) != [] {
        assert Naming(g, s)[0] in sorted;
      }
    }
    forall s | s in soldiers ensures rowOf[s] == First(Naming(g, s)) {
      FirstUnique(Naming(g, s), rowOf[s]);
    }
  }

  // ----- distinctness -----

  lemma PairsAppend(cs: seq<Candidate>, ds: seq<Candidate>)
    requires PairsDistinct(cs) && PairsDistinct(ds)
    requires forall c, d | c in cs && d in ds :: c.request != d.request || c.soldier != d.soldier
    ensures PairsDistinct(cs + ds)
  {
    forall i, j | 0 <= i < |cs| && |cs| <= j < |cs + ds|
      ensures (cs + ds)[i].request != (cs + ds)[j].request || (cs + ds)[i].soldier != (cs + ds)[j].soldier
    {
      assert cs[i] in cs && ds[j - |cs|] in ds;
    }
  }

  lemma SurvivorsDiffer(rows: seq<Row>, k: Key, m: Key)
    requires DistinctIds(rows) && LiveWith(rows, k) != [] && LiveWith(rows, m) != [] && k != m
    ensures Survivor(LiveWith(rows, k)).id != Survivor(LiveWith(rows, m)).id
  {
    SameIdSameRow(rows, Survivor(LiveWith(rows, k)), Survivor(LiveWith(rows, m)));
  }

  /** Everything the groups of the first m keys contribute. */
  ghost predicate FromKeys(rows: seq<Row>, keys: seq<Key>, m: nat, c: Candidate)
    requires m <= |keys|
  {
    exists j :: 0 <= j < m && FromKey(rows, keys[j], c)
  }

  ghost predicate Lost(rows: seq<Row>, k: Key, id: Id) {
    LiveWith(rows, k) != [] && exists r :: r in LiveWith(rows, k) && r != Survivor(LiveWith(rows, k)) && r.id == id
  }

  ghost predicate PostedKey(rows: seq<Row>, k: Key, id: Id) {
    LiveWith(rows, k) != [] && AnyUntargeted(LiveWith(rows, k)) && id == Survivor(LiveWith(rows, k)).id
  }

  // What has been written after the groups of the first m keys.

  ghost predicate HasCandidates(rows: seq<Row>, keys: seq<Key>, m: nat, cs: seq<Candidate>)
    requires m <= |keys|
  {
    PairsDistinct(cs) && forall c :: c in cs <==> FromKeys(rows, keys, m, c)
  }

  ghost predicate PostedKeys(rows: seq<Row>, keys: seq<Key>, m: nat, id: Id)
    requires m <= |keys|
  {
    exists j :: 0 <= j < m && PostedKey(rows, keys[j], id)
  }

  ghost predicate HasPosted(rows: seq<Row>, keys: seq<Key>, m: nat, posted: set<Id>)
    requires m <= |keys|
  {
    forall id :: id in posted <==> PostedKeys(rows, keys, m, id)
  }

  ghost predicate HasLost(rows: seq<Row>, keys: seq<Key>, m: nat, lost: set<Id>)
    requires m <= |keys|
  {
    forall id :: id in lost <==> exists j :: 0 <= j < m && Lost(rows, keys[j], id)
  }

  ghost predicate GroupCandidates(g: seq<Row>, cs: seq<Candidate>) {
    && (forall c :: c in cs <==> FromGroup(g, c))
    && (forall i, j | 0 <= i < |cs| && 0 <= j < |cs| && cs[i].soldier == cs[j].soldier :: i == j)
  }

  /** The request to mark as posted to the marketplace, if any. */
  function Mark(g: seq<Row>): set<Id>
    requires g != []
  {
    if AnyUntargeted(g) then {Survivor(g).id} else {}
  }

  /** The rows of a group that go. */
  ghost predicate LostBy(g: seq<Row>, lost: set<Id>)
    requires g != []
  {
    forall id :: id in lost <==> exists r :: r in g && r != Survivor(g) && r.id == id
  }

  /** The candidates of one group have been added. */
  ghost predicate Grown(g: seq<Row>, cs: seq<Candidate>, after: seq<Candidate>) {
    cs <= after && GroupCandidates(g, after[|cs|..])
  }

  lemma CandidatesGrow(rows: seq<Row>, keys: seq<Key>, m: nat, cs: seq<Candidate>, after: seq<Candidate>)
    requires DistinctIds(rows) && m < |keys| && (forall i, j | 0 <= i < j < |keys| :: keys[i] != keys[j])
    requires HasCandidates(rows, keys, m, cs) && Grown(LiveWith(rows, keys[m]), cs, after)
    ensures HasCandidates(rows, keys, m + 1, after)
  {
    assert after == cs + after[|cs|..];
    CandidatesStep(rows, keys, m, cs, after[|cs|..]);
  }

  lemma CandidatesApart(rows: seq<Row>, keys: seq<Key>, m: nat, cs: seq<Candidate>, ds: seq<Candidate>, c: Candidate,
                        d: Candidate)
    requires DistinctIds(rows) && m < |keys| && (forall i, j | 0 <= i < j < |keys| :: keys[i] != keys[j])
    requires HasCandidates(rows, keys, m, cs) && GroupCandidates(LiveWith(rows, keys[m]), ds)
    requires c in cs && d in ds
    ensures c.request != d.request
  {
    var j :| 0 <= j < m && FromKey(rows, keys[j], c);
    assert FromKey(rows, keys[m], d);
    SurvivorsDiffer(rows, keys[j], keys[m]);
  }

  lemma FromKeysMore(rows: seq<Row>, keys: seq<Key>, m: nat, c: Candidate)
    requires m < |keys|
    ensures FromKeys(rows, keys, m + 1, c) <==> FromKeys(rows, keys, m, c) || FromKey(rows, keys[m], c)
  {
  }

  lemma CandidatesStep(rows: seq<Row>, keys: seq<Key>, m: nat, cs: seq<Candidate>, ds: seq<Candidate>)
    requires DistinctIds(rows) && m < |keys| && (forall i, j | 0 <= i < j < |keys| :: keys[i] != keys[j])
    requires HasCandidates(rows, keys, m, cs) && GroupCandidates(LiveWith(rows, keys[m]), ds)
    ensures HasCandidates(rows, keys, m + 1, cs + ds)
  {
    forall c, d | c in cs && d in ds ensures c.request != d.request {
      CandidatesApart(rows, keys, m, cs, ds, c, d);
    }
    PairsAppend(cs, ds);
    forall c ensures c in cs + ds <==> FromKeys(rows, keys, m + 1, c) {
      FromKeysMore(rows, keys, m, c);
      assert c in cs + ds <==> c in cs || c in ds;
      assert c in ds <==> FromKey(rows, keys[m], c);
    }
  }

  lemma PostedStep(rows: seq<Row>, keys: seq<Key>, m: nat, posted: set<Id>)
    requires m < |keys| && HasPosted(rows, keys, m, posted) && LiveWith(rows, keys[m]) != []
    ensures HasPosted(rows, keys, m + 1, posted + Mark(LiveWith(rows, keys[m])))
  {
    forall id ensures PostedKeys(rows, keys, m + 1, id)
      <==> PostedKeys(rows, keys, m, id) || id in Mark(LiveWith(rows, keys[m])) {
      PostedKeysMore(rows, keys, m, id);
    }
  }

  lemma PostedKeysMore(rows: seq<Row>, keys: seq<Key>, m: nat, id: Id)
    requires m < |keys|
    ensures PostedKeys(rows, keys, m + 1, id) <==> PostedKeys(rows, keys, m, id) || PostedKey(rows, keys[m], id)
  {
  }

  lemma LostStep(rows: seq<Row>, keys: seq<Key>, m: nat, lost: set<Id>, gone: set<Id>)
    requires m < |keys| && HasLost(rows, keys, m, lost) && LiveWith(rows, keys[m]) != []
    requires LostBy(LiveWith(rows, keys[m]), gone)
    ensures HasLost(rows, keys, m + 1, lost + gone)
  {
    forall id ensures id in gone <==> Lost(rows, keys[m], id) {
    }
  }

  ghost predicate OfSome(rows: seq<Row>, c: Candidate) {
    exists r :: r in rows && CandidateOfEnded(r) == Some(c)
  }

  ghost predicate EndedCandidates(rows: seq<Row>, cs: seq<Candidate>) {
    && (forall c :: c in cs <==> OfSome(rows, c))
    && (forall i, j | 0 <= i < |cs| && 0 <= j < |cs| && cs[i].request == cs[j].request :: i == j)
  }

  lemma EndedStep(rows: seq<Row>, i: nat, cs: seq<Candidate>)
    requires DistinctIds(rows) && i < |rows| && EndedCandidates(rows[..i], cs)
    ensures EndedCandidates(rows[..i + 1],
      if CandidateOfEnded(rows[i]).None? then cs else cs + [CandidateOfEnded(rows[i]).value])
  {
    var before, all := rows[..i], rows[..i + 1];
    assert all == before + [rows[i]];
    forall c | c in cs ensures c.request != rows[i].id {
      assert OfSome(before, c);
      var r :| r in before && CandidateOfEnded(r) == Some(c);
      var j :| 0 <= j < i && rows[j] == r;
    }
    forall c ensures OfSome(all, c) <==> OfSome(before, c) || CandidateOfEnded(rows[i]) == Some(c) {
      if OfSome(before, c) {
        var r :| r in before && CandidateOfEnded(r) == Some(c);
        assert r in all;
      }
    }
  }

  ghost predicate Untargeted(rows: seq<Row>, id: Id) {
    exists r :: r in rows && r.target.None? && r.id == id
  }

  /** The ended rows without a target have been marked as well. */
  ghost predicate PostedToo(rows: seq<Row>, posted: set<Id>, marked: set<Id>) {
    forall id :: id in marked <==> id in posted || Untargeted(rows, id)
  }

  class Tables {
    var requests: seq<Row>
    var marketplace: set<Id>         // requests whose new marketplace column is set
    var candidates: seq<Candidate>
    var approvals: seq<Approval>
    var parents: seq<Parent>         // the requests with their remaining columns

    constructor (requests: seq<Row>, approvals: seq<Approval>)
      ensures this.requests == requests && this.approvals == approvals
      ensures marketplace == {} && candidates == [] && parents == []
    {
      this.requests, this.approvals := requests, approvals;
      marketplace, candidates, parents := {}, [], [];
    }

    /** One group: its candidates, its marketplace mark, and the rows that go. */
    method Consolidate(g: seq<Row>) returns (lost: set<Id>)
      requires DistinctIds(g) && g != []
      modifies this`marketplace, this`candidates
      ensures marketplace == old(marketplace) + Mark(g)
      ensures Grown(g, old(candidates), candidates)
      ensures LostBy(g, lost)
    {
      marketplace := marketplace + Mark(g);
      var inserted := NewCandidates(g);
      candidates := candidates + inserted;
      assert candidates[|old(candidates)|..] == inserted;
      lost := Losers(g);
    }

    /** The ended rows: each its own parent, with at most one candidate. */
    method KeepEnded(rows: seq<Row>)
      requires DistinctIds(rows)
      modifies this`marketplace, this`candidates
      ensures PostedToo(rows, old(marketplace), marketplace)
      ensures old(candidates) <= candidates && EndedCandidates(rows, candidates[|old(candidates)|..])
    {
      var inserted, marked := EndedRows(rows, marketplace);
      candidates, marketplace := candidates + inserted, marked;
      assert candidates[|old(candidates)|..] == inserted;
    }

    method ConsolidateAll(keys: seq<Key>, groups: map<Key, seq<Row>>) returns (lost: set<Id>)
      requires DistinctIds(requests) && Grouped(requests, keys, groups)
      requires candidates == [] && marketplace == {}
      modifies this`marketplace, this`candidates
      ensures HasCandidates(requests, keys, |keys|, candidates)
      ensures HasPosted(requests, keys, |keys|, marketplace)
      ensures HasLost(requests, keys, |keys|, lost)
    {
      ghost var rows := requests;
      lost := {};
      for m := 0 to |keys|
        invariant HasCandidates(rows, keys, m, candidates)
        invariant HasPosted(rows, keys, m, marketplace)
        invariant HasLost(rows, keys, m, lost)
      {
        var g := groups[keys[m]];
        assert keys[m] in keys && GroupAt(rows, groups, keys[m]) && g == LiveWith(rows, keys[m]) && DistinctIds(g);
        ghost var cs, posted := candidates, marketplace;
        var gone := Consolidate(g);
        CandidatesGrow(rows, keys, m, cs, candidates);
        PostedStep(rows, keys, m, posted);
        LostStep(rows, keys, m, lost, gone);
        lost := lost + gone;
      }
    }

    /** Deletes the given-up requests, and through the foreign key their approvals. */
    method Delete(lost: set<Id>)
      modifies this`requests, this`approvals
      ensures requests == Where(old(requests), (r: Row) => r.id !in lost)
      ensures approvals == Cascaded(old(approvals), lost)
      ensures forall r :: r in requests <==> r in old(requests) && r.id !in lost
      ensures forall a :: a in approvals <==> a in old(approvals) && a.request !in lost
    {
      requests := Where(requests, (r: Row) => r.id !in lost);
      approvals := Cascaded(approvals, lost);
    }

    /** Each approval of the covering side is joined with its row and that row's own candidate. */
    method Repoint()
      modifies this`approvals
      ensures |approvals| == |old(approvals)|
      ensures forall i | 0 <= i < |approvals| :: IsRepointed(requests, candidates, old(approvals)[i], approvals[i])
    {
      var done := [];
      for i := 0 to |approvals|
        invariant approvals == old(approvals) && |done| == i
        invariant forall j | 0 <= j < i :: IsRepointed(requests, candidates, approvals[j], done[j])
      {
        var a := approvals[i];
        var c := None;
        if a.side.CoveringSide? {
          c := FindCandidate(requests, candidates, a.request);
        }
        done := done + [a.(candidate := c)];
      }
      approvals := done;
    }

    /** Live rows are plain open from now on; the per-target columns go. */
    method Collapse(ghost rows: seq<Row>)
      requires requests == Kept(rows)
      requires MarksPosted(rows, marketplace)
      modifies this`parents
      ensures IsParents(rows, parents)
    {
      parents := RemainingColumns(requests, marketplace);
      MarkedAreParents(rows, requests, marketplace, parents);
    }

    /** The consolidation itself: candidates in, merged rows out. */
    method Merge()
      requires DistinctIds(requests) && candidates == [] && marketplace == {}
      modifies this`requests, this`marketplace, this`candidates, this`approvals
      ensures requests == Kept(old(requests))
      ensures approvals == KeptApprovals(old(requests), old(approvals))
      ensures IsCandidates(old(requests), candidates)
      ensures MarksPosted(old(requests), marketplace)
    {
      ghost var rows := requests;
      var keys, groups, others := GroupRows(requests);
      var lost := ConsolidateAll(keys, groups);
      ghost var cs, posted := candidates, marketplace;
      EndedDistinct(rows, others);
      KeepEnded(others);
      AllCandidates(rows, keys, groups, cs, others, candidates);
      AllPosted(rows, keys, groups, posted, others, marketplace);
      DeletedAll(rows, keys, groups, lost, approvals);
      Delete(lost);
    }

    /** The whole migration. */
    method Upgrade()
      requires DistinctIds(requests) && candidates == [] && marketplace == {}
      modifies this
      ensures requests == Kept(old(requests))
      ensures IsParents(old(requests), parents)
      ensures IsCandidates(old(requests), candidates)
      ensures AreRepointed(old(requests), candidates, old(approvals), approvals)
    {
      ghost var rows := requests;
      Merge();
      Repoint();
      Collapse(rows);
    }
  }

  ghost predicate MarksPosted(rows: seq<Row>, marked: set<Id>) {
    forall r | r in Kept(rows) :: r.id in marked <==> Posted(rows, r)
  }

  /** These are the rows that had come to an end. */
  ghost predicate AreEnded(rows: seq<Row>, others: seq<Row>) {
    DistinctIds(others) && forall r :: r in others <==> r in rows && !Live(r)
  }

  lemma EndedDistinct(rows: seq<Row>, others: seq<Row>)
    requires DistinctIds(rows) && others == Where(rows, (r: Row) => !Live(r))
    ensures AreEnded(rows, others)
  {
    WhereDistinct(rows, (r: Row) => !Live(r));
  }

  lemma GroupOf(rows: seq<Row>, keys: seq<Key>, groups: map<Key, seq<Row>>, k: Key) returns (j: nat)
    requires Grouped(rows, keys, groups) && LiveWith(rows, k) != []
    ensures j < |keys| && keys[j] == k
  {
    assert GroupAt(rows, groups, k);
    assert k in keys;
    j :| j < |keys| && keys[j] == k;
  }

  lemma EndedDiffers(rows: seq<Row>, k: Key, c: Candidate, d: Candidate)
    requires DistinctIds(rows) && FromKey(rows, k, c) && FromEnded(rows, d)
    ensures c.request != d.request
  {
    var r :| r in rows && !Live(r) && CandidateOfEnded(r) == Some(d);
    SameIdSameRow(rows, r, Survivor(LiveWith(rows, k)));
  }

  lemma EndedOnly(rows: seq<Row>, others: seq<Row>, ds: seq<Candidate>)
    requires AreEnded(rows, others) && EndedCandidates(others, ds)
    ensures forall c :: c in ds <==> FromEnded(rows, c)
  {
    forall c ensures OfSome(others, c) <==> FromEnded(rows, c) {
      if OfSome(others, c) {
        var r :| r in others && CandidateOfEnded(r) == Some(c);
        assert r in rows;
      }
    }
  }

  lemma AllCandidates(rows: seq<Row>, keys: seq<Key>, groups: map<Key, seq<Row>>, cs: seq<Candidate>,
                      others: seq<Row>, all: seq<Candidate>)
    requires DistinctIds(rows) && Grouped(rows, keys, groups)
    requires HasCandidates(rows, keys, |keys|, cs)
    requires AreEnded(rows, others) && cs <= all && EndedCandidates(others, all[|cs|..])
    ensures IsCandidates(rows, all)
  {
    var ds := all[|cs|..];
    assert all == cs + ds;
    EndedOnly(rows, others, ds);
    forall c, d | c in cs && d in ds ensures c.request != d.request {
      var j :| 0 <= j < |keys| && FromKey(rows, keys[j], c);
      EndedDiffers(rows, keys[j], c, d);
    }
    PairsAppend(cs, ds);
    forall c ensures c in cs <==> exists k: Key :: FromKey(rows, k, c) {
      if k: Key :| FromKey(rows, k, c) {
        var j := GroupOf(rows, keys, groups, k);
      }
    }
    forall c ensures c in cs + ds <==> Expected(rows, c) {
      assert c in cs + ds <==> c in cs || c in ds;
      assert c in ds <==> FromEnded(rows, c);
    }
  }

  lemma AllPosted(rows: seq<Row>, keys: seq<Key>, groups: map<Key, seq<Row>>, posted: set<Id>, others: seq<Row>,
                  marked: set<Id>)
    requires DistinctIds(rows) && Grouped(rows, keys, groups)
    requires HasPosted(rows, keys, |keys|, posted)
    requires AreEnded(rows, others) && PostedToo(others, posted, marked)
    ensures MarksPosted(rows, marked)
  {
    forall r | r in Kept(rows) ensures r.id in marked <==> Posted(rows, r) {
      forall q | q in rows && q.id == r.id ensures q == r {
        SameIdSameRow(rows, q, r);
      }
      if r.id in posted {
        var j :| 0 <= j < |keys| && PostedKey(rows, keys[j], r.id);
        assert Survivor(LiveWith(rows, keys[j])) == r;
      }
      if Live(r) && Posted(rows, r) {
        var j := GroupOf(rows, keys, groups, KeyOf(r));
        assert PostedKey(rows, keys[j], r.id);
      }
    }
  }

  lemma {:induction false} WhereExt(rows: seq<Row>, p: Row -> bool, q: Row -> bool)
    requires forall r | r in rows :: p(r) == q(r)
    ensures Where(rows, p) == Where(rows, q)
  {
    if rows != [] {
      assert rows == rows[..|rows| - 1] + [rows[|rows| - 1]];
      WhereExt(rows[..|rows| - 1], p, q);
    }
  }

  lemma DeletedAll(rows: seq<Row>, keys: seq<Key>, groups: map<Key, seq<Row>>, lost: set<Id>, approvals: seq<Approval>)
    requires DistinctIds(rows) && Grouped(rows, keys, groups)
    requires HasLost(rows, keys, |keys|, lost)
    ensures Where(rows, (r: Row) => r.id !in lost) == Kept(rows)
    ensures Cascaded(approvals, lost) == KeptApprovals(rows, approvals)
  {
    forall r | r in rows ensures r.id in lost <==> !Survives(rows, r) {
      forall q | q in rows && q.id == r.id ensures q == r {
        SameIdSameRow(rows, q, r);
      }
      if r.id in lost {
        var j :| 0 <= j < |keys| && Lost(rows, keys[j], r.id);
      }
      if !Survives(rows, r) {
        var j := GroupOf(rows, keys, groups, KeyOf(r));
        assert Lost(rows, keys[j], r.id);
      }
    }
    WhereExt(rows, (r: Row) => r.id !in lost, (r: Row) => Survives(rows, r));
    forall id ensures id in lost <==> GivenUp(rows, id) {
      if id in lost {
        var j :| 0 <= j < |keys| && Lost(rows, keys[j], id);
        var r :| r in LiveWith(rows, keys[j]) && r != Survivor(LiveWith(rows, keys[j])) && r.id == id;
        assert r in rows;
      }
    }
    CascadedAll(rows, approvals, lost);
  }

  /** The approvals of the requests that stay, in order. */
  function Cascaded(approvals: seq<Approval>, lost: set<Id>): (r: seq<Approval>)
    ensures forall a :: a in r <==> a in approvals && a.request !in lost
  {
    if approvals == [] then []
    else
      var last := approvals[|approvals| - 1];
      assert approvals == approvals[..|approvals| - 1] + [last];
      Cascaded(approvals[..|approvals| - 1], lost) + if last.request in lost then [] else [last]
  }

  lemma {:induction false} CascadedAll(rows: seq<Row>, approvals: seq<Approval>, lost: set<Id>)
    requires forall id :: id in lost <==> GivenUp(rows, id)
    ensures Cascaded(approvals, lost) == KeptApprovals(rows, approvals)
  {
    if approvals != [] {
      CascadedAll(rows, approvals[..|approvals| - 1], lost);
    }
  }

  /** The candidate at the request whose soldier is the covering soldier of the request's row. */
  method FindCandidate(rows: seq<Row>, cs: seq<Candidate>, request: Id) returns (found: Option<nat>)
    ensures found.Some? ==>
              && found.value < |cs| && cs[found.value].request == request
              && exists r :: r in rows && r.id == request && r.covering == Some(cs[found.value].soldier)
    ensures found.None? ==>
              forall r, c | r in rows && r.id == request && c in cs && c.request == request ::
                r.covering != Some(c.soldier)
  {
    found := None;
    for i := 0 to |rows|
      invariant found.None?
      invariant forall j, c | 0 <= j < i && rows[j].id == request && c in cs && c.request == request ::
                  rows[j].covering != Some(c.soldier)
    {
      if rows[i].id == request && rows[i].covering.Some? {
        for j := 0 to |cs|
          invariant found.None?
          invariant forall m | 0 <= m < j && cs[m].request == request :: rows[i].covering != Some(cs[m].soldier)
        {
          if cs[j].request == request && rows[i].covering == Some(cs[j].soldier) {
            assert rows[i] in rows;
            return Some(j);
          }
        }
      }
    }
  }

  method EndedRows(rows: seq<Row>, posted: set<Id>) returns (inserted: seq<Candidate>, marked: set<Id>)
    requires DistinctIds(rows)
    ensures EndedCandidates(rows, inserted) && PostedToo(rows, posted, marked)
  {
    inserted, marked := [], posted;
    for i := 0 to |rows|
      invariant EndedCandidates(rows[..i], inserted) && PostedToo(rows[..i], posted, marked)
    {
      var row := rows[i];
      EndedStep(rows, i, inserted);
      PostedTooStep(rows, i, posted, marked);
      var c := CandidateOfEnded(row);
      inserted := if c.None? then inserted else inserted + [c.value];
      marked := if row.target.None? then marked + {row.id} else marked;
    }
    assert rows[..|rows|] == rows;
  }

  lemma PostedTooStep(rows: seq<Row>, i: nat, posted: set<Id>, marked: set<Id>)
    requires i < |rows| && PostedToo(rows[..i], posted, marked)
    ensures PostedToo(rows[..i + 1], posted, if rows[i].target.None? then marked + {rows[i].id} else marked)
  {
    var before, all := rows[..i], rows[..i + 1];
    assert all == before + [rows[i]];
    forall id ensures Untargeted(all, id) <==> Untargeted(before, id) || (rows[i].target.None? && rows[i].id == id) {
      if Untargeted(before, id) {
        var r :| r in before && r.target.None? && r.id == id;
        assert r in all;
      }
    }
  }

  /** One candidate per soldier named in the group, whichever and however many rows name him. */
  method NewCandidates(g: seq<Row>) returns (inserted: seq<Candidate>)
    requires DistinctIds(g) && g != []
    ensures GroupCandidates(g, inserted)
  {
    var soldiers, rowOf := RowsBySoldier(g);
    inserted := [];
    for i := 0 to |soldiers|
      invariant |inserted| == i && Inserted(g, soldiers, inserted)
    {
      var soldier := soldiers[i];
      assert soldier in soldiers;
      InsertedStep(g, soldiers, inserted, rowOf[soldier]);
      inserted := inserted + [CandidateFrom(g, soldier, rowOf[soldier])];
    }
    InsertedAll(g, soldiers, inserted);
  }

  /** The remaining columns of the rows that are left. */
  method RemainingColumns(kept: seq<Row>, marked: set<Id>) returns (parents: seq<Parent>)
    ensures |parents| == |kept|
    ensures forall j | 0 <= j < |kept| :: parents[j] == ParentOf(kept[j], kept[j].id in marked)
  {
    parents := [];
    for i := 0 to |kept|
      invariant |parents| == i
      invariant forall j | 0 <= j < i :: parents[j] == ParentOf(kept[j], kept[j].id in marked)
    {
      parents := parents + [ParentOf(kept[i], kept[i].id in marked)];
    }
  }

  lemma MarkedAreParents(rows: seq<Row>, kept: seq<Row>, marked: set<Id>, parents: seq<Parent>)
    requires kept == Kept(rows) && MarksPosted(rows, marked) && |parents| == |kept|
    requires forall j | 0 <= j < |kept| :: parents[j] == ParentOf(kept[j], kept[j].id in marked)
    ensures IsParents(rows, parents)
  {
    forall j | 0 <= j < |kept| ensures parents[j] == ParentOf(kept[j], Posted(rows, kept[j])) {
      assert kept[j] in kept;
    }
  }

  method Losers(g: seq<Row>) returns (lost: set<Id>)
    requires DistinctIds(g) && g != []
    ensures LostBy(g, lost)
  {
    var survivor := Survivor(g).id;
    lost := {};
    for i := 0 to |g|
      invariant forall id :: id in lost <==> exists j :: 0 <= j < i && g[j].id != survivor && g[j].id == id
    {
      if g[i].id != survivor {
        lost := lost + {g[i].id};
      }
    }
    LosersByRow(g, lost);
  }

  ghost predicate Inserted(g: seq<Row>, soldiers: seq<Id>, inserted: seq<Candidate>) {
    && |inserted| <= |soldiers|
    && forall j | 0 <= j < |inserted| :: inserted[j].soldier == soldiers[j] && FromGroup(g, inserted[j])
  }

  lemma InsertedStep(g: seq<Row>, soldiers: seq<Id>, inserted: seq<Candidate>, row: Row)
    requires g != [] && Inserted(g, soldiers, inserted) && |inserted| < |soldiers|
    requires Naming(g, soldiers[|inserted|]) != [] && row == First(Naming(g, soldiers[|inserted|]))
    ensures Inserted(g, soldiers, inserted + [CandidateFrom(g, soldiers[|inserted|], row)])
  {
    var c := CandidateFrom(g, soldiers[|inserted|], row);
    assert FromGroup(g, c);
  }

  lemma InsertedAll(g: seq<Row>, soldiers: seq<Id>, inserted: seq<Candidate>)
    requires forall i, j | 0 <= i < j < |soldiers| :: soldiers[i] != soldiers[j]
    requires forall s :: s in soldiers <==> Naming(g, s) != []
    requires |inserted| == |soldiers| && Inserted(g, soldiers, inserted)
    ensures GroupCandidates(g, inserted)
  {
    forall c | FromGroup(g, c) ensures c in inserted {
      var j :| 0 <= j < |soldiers| && soldiers[j] == c.soldier;
      assert inserted[j] == c;
    }
  }

  lemma LosersByRow(g: seq<Row>, lost: set<Id>)
    requires DistinctIds(g) && g != []
    requires forall id :: id in lost <==> exists j :: 0 <= j < |g| && g[j].id != Survivor(g).id && g[j].id == id
    ensures LostBy(g, lost)
  {
    forall r | r in g ensures r != Survivor(g) ==> r.id in lost {
      SameIdSameRow(g, r, Survivor(g));
      var j :| 0 <= j < |g| && g[j] == r;
    }
  }
}
