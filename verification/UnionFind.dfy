/**
 Disjoint sets over 0..n-1 as a parent array with path halving, and the graph notion that
 they decide: two nodes have the same root exactly when a walk of joined pairs links them.
 */
module UnionFind {

  // ----- walks in an undirected graph -----

  type Edges = seq<(nat, nat)>

  ghost predicate Adjacent(es: Edges, u: nat, v: nat) {
    (u, v) in es || (v, u) in es
  }

  ghost predicate IsWalk(es: Edges, p: seq<nat>) {
    p != [] && forall i | 0 <= i < |p| - 1 :: Adjacent(es, p[i], p[i + 1])
  }

  ghost predicate Joins(es: Edges, p: seq<nat>, u: nat, v: nat) {
    IsWalk(es, p) && p[0] == u && p[|p| - 1] == v
  }

  ghost predicate Linked(es: Edges, u: nat, v: nat) {
    exists p :: Joins(es, p, u, v)
  }

  lemma LinkedSelf(es: Edges, u: nat)
    ensures Linked(es, u, u)
  {
    assert Joins(es, [u], u, u);
  }

  lemma LinkedEdge(es: Edges, u: nat, v: nat)
    requires Adjacent(es, u, v)
    ensures Linked(es, u, v)
  {
    assert Joins(es, [u, v], u, v);
  }

  lemma LinkedSymmetric(es: Edges, u: nat, v: nat)
    requires Linked(es, u, v)
    ensures Linked(es, v, u)
  {
    var p :| Joins(es, p, u, v);
    var q := seq(|p|, i requires 0 <= i < |p| => p[|p| - 1 - i]);
    forall i | 0 <= i < |q| - 1 ensures Adjacent(es, q[i], q[i + 1]) {
      assert Adjacent(es, p[|p| - 2 - i], p[|p| - 1 - i]);
    }
    assert Joins(es, q, v, u);
  }

  lemma LinkedTransitive(es: Edges, u: nat, v: nat, w: nat)
    requires Linked(es, u, v) && Linked(es, v, w)
    ensures Linked(es, u, w)
  {
    var p :| Joins(es, p, u, v);
    var q :| Joins(es, q, v, w);
    assert Joins(es, p + q[1..], u, w);
  }

  lemma LinkedMonotone(es: Edges, fs: Edges, u: nat, v: nat)
    requires Linked(es, u, v)
    requires forall e | e in es :: e in fs
    ensures Linked(fs, u, v)
  {
    var p :| Joins(es, p, u, v);
    assert Joins(fs, p, u, v);
  }

  /** A marking that is constant along every edge is constant along every walk. */
  lemma {:induction false} WalkKeepsMark(es: Edges, mark: seq<nat>, p: seq<nat>)
    requires IsWalk(es, p) && p[0] < |mark|
    requires forall e | e in es :: e.0 < |mark| && e.1 < |mark| && mark[e.0] == mark[e.1]
    ensures p[|p| - 1] < |mark| && mark[p[|p| - 1]] == mark[p[0]]
    decreases |p|
  {
    if |p| > 1 {
      assert Adjacent(es, p[0], p[1]);
      WalkKeepsMark(es, mark, p[1..]);
    }
  }

  // ----- partitions by representative -----

  /** Equal representative means linked, both ways. */
  ghost predicate Decides(rep: seq<nat>, es: Edges) {
    && (forall e | e in es :: e.0 < |rep| && e.1 < |rep|)
    && (forall u: nat, v: nat | u < |rep| && v < |rep| :: rep[u] == rep[v] <==> Linked(es, u, v))
  }

  /** Every node in a class of its own. */
  function Singles(n: nat): (rep: seq<nat>)
    ensures |rep| == n && forall v: nat | v < n :: rep[v] == v
  {
    seq(n, i requires 0 <= i => i)
  }

  /** The partition in which the class of a joins the class of b. */
  function Merged(rep: seq<nat>, a: nat, b: nat): (r: seq<nat>)
    requires a < |rep| && b < |rep|
    ensures |r| == |rep|
    ensures forall v: nat | v < |rep| :: r[v] == if rep[v] == rep[a] then rep[b] else rep[v]
  {
    seq(|rep|, v requires 0 <= v < |rep| => if rep[v] == rep[a] then rep[b] else rep[v])
  }

  lemma EmptyGraphDecided(rep: seq<nat>)
    requires forall v: nat | v < |rep| :: rep[v] == v
    ensures Decides(rep, [])
  {
    forall u: nat, v: nat | u < |rep| && v < |rep| ensures rep[u] == rep[v] <==> Linked([], u, v) {
      if Linked([], u, v) {
        var p :| Joins([], p, u, v);
        WalkKeepsMark([], rep, p);
      }
      LinkedSelf([], u);
    }
  }

  /** Joining the classes of an edge's ends decides the graph with that edge added. */
  lemma MergedDecides(rep: seq<nat>, es: Edges, a: nat, b: nat)
    requires a < |rep| && b < |rep| && Decides(rep, es)
    ensures Decides(Merged(rep, a, b), es + [(a, b)])
  {
    var fs := es + [(a, b)];
    var m := Merged(rep, a, b);
    forall e | e in fs ensures e.0 < |m| && e.1 < |m| && m[e.0] == m[e.1] {
      if e in es {
        LinkedEdge(es, e.0, e.1);
      }
    }
    forall u: nat, v: nat | u < |m| && v < |m| ensures m[u] == m[v] <==> Linked(fs, u, v) {
      if Linked(fs, u, v) {
        var p :| Joins(fs, p, u, v);
        WalkKeepsMark(fs, m, p);
      }
      if m[u] == m[v] {
        MergedLinked(rep, es, a, b, u, v);
      }
    }
  }

  lemma MergedLinked(rep: seq<nat>, es: Edges, a: nat, b: nat, u: nat, v: nat)
    requires a < |rep| && b < |rep| && u < |rep| && v < |rep| && Decides(rep, es)
    requires Merged(rep, a, b)[u] == Merged(rep, a, b)[v]
    ensures Linked(es + [(a, b)], u, v)
  {
    var fs := es + [(a, b)];
    if rep[u] == rep[v] {
      LinkedMonotone(es, fs, u, v);
    } else if rep[u] == rep[a] {
      AcrossEdge(rep, es, a, b, u, v);
    } else {
      AcrossEdge(rep, es, a, b, v, u);
      LinkedSymmetric(fs, v, u);
    }
  }

  lemma AcrossEdge(rep: seq<nat>, es: Edges, a: nat, b: nat, u: nat, v: nat)
    requires a < |rep| && b < |rep| && u < |rep| && v < |rep| && Decides(rep, es)
    requires rep[u] == rep[a] && rep[v] == rep[b]
    ensures Linked(es + [(a, b)], u, v)
  {
    var fs := es + [(a, b)];
    LinkedMonotone(es, fs, u, a);
    LinkedMonotone(es, fs, b, v);
    LinkedEdge(fs, a, b);
    LinkedTransitive(fs, u, a, b);
    LinkedTransitive(fs, u, b, v);
  }

  // ----- the forest of parents -----

  /** The parent of v belongs to the tree of v and, unless v is the root, stands on a lower level. */
  ghost predicate Placed(parent: seq<nat>, root: seq<nat>, level: seq<nat>, v: nat) {
    && |parent| == |root| == |level|
    && v < |parent|
    && root[v] < |parent| && parent[root[v]] == root[v]
    && parent[v] < |parent| && root[parent[v]] == root[v]
    && (parent[v] == v ==> root[v] == v)
    && (parent[v] != v ==> level[parent[v]] < level[v])
  }

  /** Parent links lead, level by level, to the root of each node. */
  ghost predicate Forest(parent: seq<nat>, root: seq<nat>, level: seq<nat>) {
    && |parent| == |root| == |level|
    && (forall v: nat | v < |parent| :: Placed(parent, root, level, v))
  }

  /** Linking a node to its grandparent changes no root. */
  lemma HalvingKeepsForest(parent: seq<nat>, root: seq<nat>, level: seq<nat>, a: nat)
    requires Forest(parent, root, level) && a < |parent|
    ensures parent[a] < |parent| && parent[parent[a]] < |parent|
    ensures root[parent[parent[a]]] == root[a]
    ensures parent[a] != a ==> level[parent[parent[a]]] < level[a]
    ensures Forest(parent[a := parent[parent[a]]], root, level)
  {
    assert Placed(parent, root, level, a) && Placed(parent, root, level, parent[a]);
    var q := parent[a := parent[parent[a]]];
    forall v: nat | v < |q| ensures Placed(q, root, level, v) {
      assert Placed(parent, root, level, v) && Placed(parent, root, level, root[v]);
    }
  }

  function Raised(root: seq<nat>, level: seq<nat>, ra: nat, lift: nat): (r: seq<nat>)
    requires |root| == |level|
    ensures |r| == |level|
    ensures forall v: nat | v < |r| :: r[v] == if root[v] == ra then level[v] + lift else level[v]
  {
    seq(|level|, v requires 0 <= v < |level| => if root[v] == ra then level[v] + lift else level[v])
  }

  /** Merging by the two roots is merging; with one root nothing changes. */
  lemma MergedByRoots(root: seq<nat>, a: nat, b: nat)
    requires a < |root| && b < |root| && root[a] < |root| && root[b] < |root|
    requires root[root[a]] == root[a] && root[root[b]] == root[b]
    ensures Merged(root, root[a], root[b]) == Merged(root, a, b)
    ensures root[a] == root[b] ==> Merged(root, a, b) == root
  {
  }

  lemma RootsMerge(parent: seq<nat>, root: seq<nat>, level: seq<nat>, a: nat, b: nat)
    requires Forest(parent, root, level) && a < |root| && b < |root|
    ensures root[a] < |parent| && root[b] < |parent| && parent[root[a]] == root[a] && parent[root[b]] == root[b]
    ensures Merged(root, root[a], root[b]) == Merged(root, a, b)
    ensures root[a] == root[b] ==> Merged(root, a, b) == root
  {
    assert Placed(parent, root, level, a) && Placed(parent, root, level, b);
    assert Placed(parent, root, level, root[a]) && Placed(parent, root, level, root[b]);
    MergedByRoots(root, a, b);
  }

  /** Hanging one root under another merges two trees. */
  lemma LinkingKeepsForest(parent: seq<nat>, root: seq<nat>, level: seq<nat>, ra: nat, rb: nat)
    requires Forest(parent, root, level) && ra < |parent| && rb < |parent|
    requires parent[ra] == ra && parent[rb] == rb && ra != rb
    ensures Forest(parent[ra := rb], Merged(root, ra, rb), Raised(root, level, ra, level[rb] + 1))
  {
    var p, r, l := parent[ra := rb], Merged(root, ra, rb), Raised(root, level, ra, level[rb] + 1);
    assert Placed(parent, root, level, ra) && Placed(parent, root, level, rb);
    forall v: nat | v < |p| ensures Placed(p, r, l, v) {
      assert Placed(parent, root, level, v) && Placed(parent, root, level, root[v]);
    }
  }

  class DisjointSets {
    const parent: array<nat>
    ghost var root: seq<nat>    // the representative of each node
    ghost var level: seq<nat>   // falls along every parent link

    ghost predicate Valid()
      reads this, parent
    {
      Forest(parent[..], root, level)
    }

    constructor (n: nat)
      ensures Valid() && fresh(parent)
      ensures root == Singles(n)
    {
      parent := new nat[n](i => i);
      root := Singles(n);
      level := seq(n, i => 0);
    }

    /** The representative of a; every second node on the way is linked to its grandparent. */
    method Find(a: nat) returns (r: nat)
      requires Valid() && a < |root|
      modifies parent
      ensures Valid()
      ensures r < parent.Length == |root| && r == root[a] && parent[r] == r
    {
      r := a;
      assert Placed(parent[..], root, level, r);
      while parent[r] != r
        invariant Valid()
        invariant r < |root| == parent.Length && root[r] == root[a]
        decreases level[r]
      {
        ghost var before := parent[..];
        HalvingKeepsForest(before, root, level, r);
        var grandparent := parent[parent[r]];
        parent[r] := grandparent;
        assert parent[..] == before[r := grandparent];
        r := grandparent;
      }
      assert Placed(parent[..], root, level, r);
    }

    /** Joins the classes of a and b. */
    method Union(a: nat, b: nat)
      requires Valid() && a < |root| && b < |root|
      modifies this, parent
      ensures Valid() && root == Merged(old(root), a, b)
    {
      var ra := Find(a);
      var rb := Find(b);
      ghost var before := parent[..];
      RootsMerge(before, root, level, a, b);
      if ra != rb {
        LinkingKeepsForest(before, root, level, ra, rb);
        parent[ra] := rb;
        assert parent[..] == before[ra := rb];
        level := Raised(root, level, ra, level[rb] + 1);
        root := Merged(root, ra, rb);
      }
    }
  }
}
