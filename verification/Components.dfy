/** Splitting a run into the connected components of its eligibility graph. */
module Components {
  import opened Sums
  import opened UnionFind

  datatype Component = Component(duties: seq<nat>, soldiers: seq<nat>)

  /** Duty di is node di; soldier si is node nDuties + si. */
  function Graph(nDuties: nat, pairs: seq<(nat, nat)>): (es: Edges)
    ensures |es| == |pairs|
    ensures forall i | 0 <= i < |pairs| :: es[i] == (pairs[i].0, nDuties + pairs[i].1)
  {
    seq(|pairs|, i requires 0 <= i < |pairs| => (pairs[i].0, nDuties + pairs[i].1))
  }

  lemma GraphEdge(nDuties: nat, pairs: seq<(nat, nat)>, di: nat, w: nat)
    ensures (di, w) in Graph(nDuties, pairs) <==> w >= nDuties && (di, w - nDuties) in pairs
  {
    var es := Graph(nDuties, pairs);
    if (di, w) in es {
      var i :| 0 <= i < |es| && es[i] == (di, w);
      assert pairs[i] == (di, w - nDuties);
    }
    if w >= nDuties && (di, w - nDuties) in pairs {
      var i :| 0 <= i < |pairs| && pairs[i] == (di, w - nDuties);
      assert es[i] == (di, w);
    }
  }

  ghost predicate InSome(comps: seq<Component>, di: nat) {
    exists i: nat :: i < |comps| && di in comps[i].duties
  }

  ghost predicate Shaped(c: Component, nDuties: nat, nSoldiers: nat) {
    && c.duties != []
    && Increasing(c.duties) && Below(c.duties, nDuties)
    && Increasing(c.soldiers) && Below(c.soldiers, nSoldiers)
  }

  /** Duties share a component exactly when they are linked. */
  ghost predicate DutiesByLink(es: Edges, comps: seq<Component>) {
    forall i: nat, j: nat, di: nat, dj: nat |
      i < |comps| && j < |comps| && di in comps[i].duties && dj in comps[j].duties ::
      i == j <==> Linked(es, di, dj)
  }

  /** A soldier belongs to a duty's component exactly when the two are linked. */
  ghost predicate SoldiersByLink(nDuties: nat, nSoldiers: nat, es: Edges, comps: seq<Component>) {
    forall i: nat, di: nat, si: nat | i < |comps| && di in comps[i].duties && si < nSoldiers ::
      si in comps[i].soldiers <==> Linked(es, di, nDuties + si)
  }

  /** The components partition the duties, and collect exactly the linked duties and soldiers. */
  ghost predicate IsDecomposition(nDuties: nat, nSoldiers: nat, es: Edges, comps: seq<Component>) {
    && (forall i: nat | i < |comps| :: Shaped(comps[i], nDuties, nSoldiers))
    && (forall di: nat | di < nDuties :: InSome(comps, di))
    && DutiesByLink(es, comps)
    && SoldiersByLink(nDuties, nSoldiers, es, comps)
  }

  // ----- grouping nodes by root -----

  /** The i < n for which node offset + i belongs to the class of r. */
  function ClassMembers(rep: seq<nat>, offset: nat, n: nat, r: nat): seq<nat> {
    Filter(n, (i: nat) => offset + i < |rep| && rep[offset + i] == r)
  }

  /** A dictionary from roots to members, with its keys in order of first insertion. */
  ghost predicate GroupedByRoot(rep: seq<nat>, offset: nat, n: nat, order: seq<nat>, groups: map<nat, seq<nat>>) {
    && (forall r :: r in order <==> r in groups)
    && (forall i, j | 0 <= i < j < |order| :: order[i] != order[j])
    && (forall r: nat | r !in groups :: ClassMembers(rep, offset, n, r) == [])
    && (forall r: nat | r in groups :: groups[r] == ClassMembers(rep, offset, n, r) && groups[r] != [])
  }

  lemma GroupOneMore(rep: seq<nat>, offset: nat, n: nat, order: seq<nat>, groups: map<nat, seq<nat>>, r: nat)
    requires GroupedByRoot(rep, offset, n, order, groups)
    requires offset + n < |rep| && r == rep[offset + n]
    ensures GroupedByRoot(rep, offset, n + 1,
                          if r in groups then order else order + [r],
                          groups[r := (if r in groups then groups[r] else []) + [n]])
  {
    forall s: nat
      ensures ClassMembers(rep, offset, n + 1, s)
              == if s == r then ClassMembers(rep, offset, n, s) + [n] else ClassMembers(rep, offset, n, s)
    {
      FilterExt(n, (i: nat) => offset + i < |rep| && rep[offset + i] == s,
                (i: nat) => offset + i < |rep| && rep[offset + i] == s);
    }
  }

  lemma {:induction false} FilterExt(n: nat, p: nat -> bool, q: nat -> bool)
    requires forall i: nat | i < n :: p(i) == q(i)
    ensures Filter(n, p) == Filter(n, q)
  {
    if n > 0 {
      FilterExt(n - 1, p, q);
    }
  }

  method GroupByRoot(sets: DisjointSets, offset: nat, n: nat) returns (order: seq<nat>, groups: map<nat, seq<nat>>)
    requires sets.Valid() && offset + n <= |sets.root|
    modifies sets.parent
    ensures sets.Valid() && GroupedByRoot(sets.root, offset, n, order, groups)
  {
    order, groups := [], map[];
    var i: nat := 0;
    while i < n
      invariant i <= n && sets.Valid()
      invariant GroupedByRoot(sets.root, offset, i, order, groups)
    {
      var r := sets.Find(offset + i);
      GroupOneMore(sets.root, offset, i, order, groups, r);
      var members := if r in groups then groups[r] else [];
      order, groups := if r in groups then order else order + [r], groups[r := members + [i]];
      i := i + 1;
    }
  }

  ghost predicate EndsBelow(es: Edges, n: nat) {
    forall i | 0 <= i < |es| :: es[i].0 < n && es[i].1 < n
  }

  /** The partition after merging the ends of the first k edges. */
  ghost function Joined(n: nat, es: Edges, k: nat): (rep: seq<nat>)
    requires k <= |es| && EndsBelow(es, n)
    ensures |rep| == n
  {
    if k == 0 then Singles(n)
    else Merged(Joined(n, es, k - 1), es[k - 1].0, es[k - 1].1)
  }

  lemma {:induction false} JoinedDecides(n: nat, es: Edges, k: nat)
    requires k <= |es| && EndsBelow(es, n)
    ensures Decides(Joined(n, es, k), es[..k])
  {
    if k == 0 {
      EmptyGraphDecided(Joined(n, es, 0));
    } else {
      JoinedDecides(n, es, k - 1);
      MergedDecides(Joined(n, es, k - 1), es[..k - 1], es[k - 1].0, es[k - 1].1);
      assert es[..k] == es[..k - 1] + [(es[k - 1].0, es[k - 1].1)];
    }
  }

  method JoinAll(n: nat, es: Edges) returns (sets: DisjointSets)
    requires EndsBelow(es, n)
    ensures fresh(sets) && fresh(sets.parent) && sets.Valid()
    ensures |sets.root| == n && Decides(sets.root, es)
  {
    sets := new DisjointSets(n);
    var k: nat := 0;
    while k < |es|
      invariant k <= |es| && sets.Valid() && fresh(sets) && fresh(sets.parent)
      invariant sets.root == Joined(n, es, k)
    {
      sets.Union(es[k].0, es[k].1);
      k := k + 1;
    }
    JoinedDecides(n, es, |es|);
    assert es[..|es|] == es;
  }

  /** The components of the bipartite eligibility graph that contain a duty. */
  method ConnectedComponents(nDuties: nat, nSoldiers: nat, pairs: seq<(nat, nat)>) returns (comps: seq<Component>)
    requires forall p | p in pairs :: p.0 < nDuties && p.1 < nSoldiers
    ensures IsDecomposition(nDuties, nSoldiers, Graph(nDuties, pairs), comps)
  {
    var es := Graph(nDuties, pairs);
    GraphWithin(nDuties, nSoldiers, pairs);
    var sets := JoinAll(nDuties + nSoldiers, es);
    var order, dutyGroups := GroupByRoot(sets, 0, nDuties);
    var soldierOrder, soldierGroups := GroupByRoot(sets, nDuties, nSoldiers);
    comps := Assemble(nDuties, nSoldiers, sets.root, order, dutyGroups, soldierOrder, soldierGroups);
    ClassesDecompose(nDuties, nSoldiers, es, sets.root, order, comps);
  }

  lemma GraphWithin(nDuties: nat, nSoldiers: nat, pairs: seq<(nat, nat)>)
    requires forall p | p in pairs :: p.0 < nDuties && p.1 < nSoldiers
    ensures EndsBelow(Graph(nDuties, pairs), nDuties + nSoldiers)
  {
    forall i | 0 <= i < |pairs| ensures pairs[i].0 < nDuties && pairs[i].1 < nSoldiers {
      assert pairs[i] in pairs;
    }
  }

  /** The two groups of each root, side by side. */
  method Assemble(nDuties: nat, nSoldiers: nat, ghost rep: seq<nat>, order: seq<nat>, dutyGroups: map<nat, seq<nat>>,
                  ghost soldierOrder: seq<nat>, soldierGroups: map<nat, seq<nat>>) returns (comps: seq<Component>)
    requires nDuties + nSoldiers <= |rep|
    requires GroupedByRoot(rep, 0, nDuties, order, dutyGroups)
    requires GroupedByRoot(rep, nDuties, nSoldiers, soldierOrder, soldierGroups)
    ensures |comps| == |order|
    ensures forall i | 0 <= i < |comps| ::
      comps[i] == Component(ClassMembers(rep, 0, nDuties, order[i]), ClassMembers(rep, nDuties, nSoldiers, order[i]))
  {
    comps := [];
    for k := 0 to |order|
      invariant |comps| == k
      invariant forall i | 0 <= i < k ::
        comps[i] == Component(ClassMembers(rep, 0, nDuties, order[i]), ClassMembers(rep, nDuties, nSoldiers, order[i]))
    {
      var root := order[k];
      comps := comps + [Component(dutyGroups[root], if root in soldierGroups then soldierGroups[root] else [])];
    }
  }

  ghost predicate IsClass(members: seq<nat>, rep: seq<nat>, offset: nat, n: nat, r: nat) {
    forall d: nat :: d in members <==> d < n && offset + d < |rep| && rep[offset + d] == r
  }

  /** Component i is the class of the i-th root. */
  ghost predicate Classes(nDuties: nat, nSoldiers: nat, rep: seq<nat>, order: seq<nat>, comps: seq<Component>) {
    && |comps| == |order|
    && (forall i: nat | i < |comps| ::
          && IsClass(comps[i].duties, rep, 0, nDuties, order[i])
          && IsClass(comps[i].soldiers, rep, nDuties, nSoldiers, order[i]))
  }

  lemma ClassOf(nDuties: nat, nSoldiers: nat, rep: seq<nat>, order: seq<nat>, comps: seq<Component>, i: nat, di: nat)
    requires Classes(nDuties, nSoldiers, rep, order, comps) && i < |comps| && di in comps[i].duties
    ensures i < |order| && di < |rep| && rep[di] == order[i]
  {
    assert IsClass(comps[i].duties, rep, 0, nDuties, order[i]);
    assert 0 + di < |rep| && rep[0 + di] == order[i];
  }

  lemma ClassesByLink(nDuties: nat, nSoldiers: nat, es: Edges, rep: seq<nat>, order: seq<nat>, comps: seq<Component>)
    requires |rep| == nDuties + nSoldiers && Decides(rep, es)
    requires Classes(nDuties, nSoldiers, rep, order, comps)
    requires forall i, j | 0 <= i < j < |order| :: order[i] != order[j]
    ensures DutiesByLink(es, comps)
    ensures SoldiersByLink(nDuties, nSoldiers, es, comps)
  {
    forall i: nat, j: nat, di: nat, dj: nat |
      i < |comps| && j < |comps| && di in comps[i].duties && dj in comps[j].duties
      ensures i == j <==> Linked(es, di, dj)
    {
      ClassOf(nDuties, nSoldiers, rep, order, comps, i, di);
      ClassOf(nDuties, nSoldiers, rep, order, comps, j, dj);
      assert i < j ==> order[i] != order[j];
      assert j < i ==> order[j] != order[i];
    }
    forall i: nat, di: nat, si: nat | i < |comps| && di in comps[i].duties && si < nSoldiers
      ensures si in comps[i].soldiers <==> Linked(es, di, nDuties + si)
    {
      ClassOf(nDuties, nSoldiers, rep, order, comps, i, di);
      assert IsClass(comps[i].soldiers, rep, nDuties, nSoldiers, order[i]);
    }
  }

  lemma ClassesDecompose(nDuties: nat, nSoldiers: nat, es: Edges, rep: seq<nat>, order: seq<nat>, comps: seq<Component>)
    requires |rep| == nDuties + nSoldiers && Decides(rep, es) && |comps| == |order|
    requires forall i, j | 0 <= i < j < |order| :: order[i] != order[j]
    requires forall r: nat | r !in order :: ClassMembers(rep, 0, nDuties, r) == []
    requires forall i | 0 <= i < |order| :: ClassMembers(rep, 0, nDuties, order[i]) != []
    requires forall i | 0 <= i < |comps| ::
      comps[i] == Component(ClassMembers(rep, 0, nDuties, order[i]), ClassMembers(rep, nDuties, nSoldiers, order[i]))
    ensures IsDecomposition(nDuties, nSoldiers, es, comps)
  {
    ClassesByLink(nDuties, nSoldiers, es, rep, order, comps);
    forall di: nat | di < nDuties ensures InSome(comps, di) {
      assert di in ClassMembers(rep, 0, nDuties, rep[di]);
      var i: nat :| i < |order| && order[i] == rep[di];
      assert di in comps[i].duties;
    }
  }
}
